/**
 * The block store: a file of fixed-size index entries over an append-only file of packed blocks. It behaves as a
 * map from block number to (id, block).
 */
module BlockStore {
  import opened Wrappers
  import MapSum

  newtype byte = x: int | 0 <= x < 256

  datatype Entry<Id> = Entry(pos: nat, size: nat, id: Id)
  datatype Stored<Block, Id> = Stored(id: Id, block: Block)
  type Contents<Block, Id> = map<nat, Stored<Block, Id>>

  /** Serialization and hashing, which live elsewhere: raw::pack, raw::unpack, id(), num_from_id and the zero id. */
  datatype Codec<!Block, !Id> = Codec(pack: Block -> seq<byte>, unpack: seq<byte> -> Option<Block>,
                                      id: Block -> Id, num: Id -> nat, zero: Id)

  /** Packing loses nothing and is never empty, and nothing unpacks from an empty buffer. */
  ghost predicate Faithful<Block(!new), Id>(c: Codec<Block, Id>) {
    && (forall b :: |c.pack(b)| > 0 && c.unpack(c.pack(b)) == Some(b))
    && c.unpack([]) == None
  }

  function Hole<Id>(zero: Id): Entry<Id> {
    Entry(0, 0, zero)
  }

  datatype Op<Block, Id> = Store(id: Id, block: Block) | Remove(id: Id)

  /** What an operation does to the map. */
  function Effect<Block, Id(==)>(c: Codec<Block, Id>, m: Contents<Block, Id>, op: Op<Block, Id>): Contents<Block, Id> {
    match op
    case Store(id, b) =>
      var key := if id == c.zero then c.id(b) else id;
      m[c.num(key) := Stored(key, b)]
    case Remove(id) =>
      if c.num(id) in m && m[c.num(id)].id == id then m - {c.num(id)} else m
  }

  function Effects<Block, Id(==)>(c: Codec<Block, Id>, m: Contents<Block, Id>, ops: seq<Op<Block,
                             Id>>): Contents<Block, Id>
    decreases |ops|
  {
    if ops == [] then m else Effect(c, Effects(c, m, ops[..|ops|-1]), ops[|ops|-1])
  }

  ghost predicate IsLast<Block, Id>(m: Contents<Block, Id>, n: nat) {
    n in m && forall k <- m :: k <= n
  }

  /** Entry n, read from the files, is what the map says of n. */
  ghost predicate Represents<Block, Id>(c: Codec<Block, Id>, index: seq<Entry<Id>>, log: seq<byte>, m: Contents<Block,
                                        Id>, n: nat)
    requires n < |index|
  {
    var e := index[n];
    && e.pos + e.size <= |log| && (e.size > 0 <==> n in m)
    && (n in m ==> e.id == m[n].id && c.num(e.id) == n && log[e.pos..e.pos + e.size] == c.pack(m[n].block))
  }

  ghost predicate Coherent<Block(!new), Id>(c: Codec<Block, Id>, index: seq<Entry<Id>>, log: seq<byte>,
                                 m: Contents<Block, Id>) {
    && Faithful(c)
    && (forall n <- m :: n < |index|)
    && (forall n :: 0 <= n < |index| ==> Represents(c, index, log, m, n))
  }

  class BlockDatabase<Block(!new), Id(==, !new)> {
    const codec: Codec<Block, Id>
    var index: seq<Entry<Id>>
    var log: seq<byte>
    ghost var contents: Contents<Block, Id>

    ghost predicate Valid()
      reads this
    {
      Coherent(codec, index, log, contents)
    }

    constructor (codec: Codec<Block, Id>)
      requires Faithful(codec)
      ensures Valid() && contents == map[] && this.codec == codec
    {
      this.codec := codec;
      index, log, contents := [], [], map[];
    }

    /** store: the map gets the block under the number of its id. */
    method Store(given: Id, b: Block)
      requires Valid()
      modifies this
      ensures Valid() && contents == Effect(codec, old(contents), Op.Store(given, b))
      ensures old(log) <= log
      ensures var id := if given == codec.zero then codec.id(b) else given;
        codec.num(id) < |index| && index[codec.num(id)].id == id
    {
      var id := if given == codec.zero then codec.id(b) else given;
      var num := codec.num(id);
      var vec := codec.pack(b);
      var e := Entry(|log|, |vec|, id);
      ghost var log0 := log;
      log := log + vec;
      WriteEntry(num, e);
      contents := contents[num := Stored(id, b)];
      assert log[e.pos..e.pos + e.size] == vec;
      forall n | 0 <= n < |index| ensures Represents(codec, index, log, contents, n) {
        if n != num && n < |old(index)| {
          var e' := index[n];
          assert Represents(codec, old(index), log0, old(contents), n);
          assert log[e'.pos..e'.pos + e'.size] == log0[e'.pos..e'.pos + e'.size];
        }
      }
    }

    /** seekp past the end and write: the file system fills the gap with zeros. */
    method WriteEntry(num: nat, e: Entry<Id>)
      modifies this`index
      ensures |index| == if num < |old(index)| then |old(index)| else num + 1
      ensures index[num] == e
      ensures forall n :: 0 <= n < |index| && n != num ==>
        index[n] == if n < |old(index)| then old(index)[n] else Hole(codec.zero)
    {
      if num < |index| {
        index := index[num := e];
      } else {
        index := index + seq(num - |index|, _ => Hole(codec.zero)) + [e];
      }
    }

    /** remove: a tombstone if the number holds this very id; missing exactly when the index is too short. */
    method Remove(id: Id) returns (found: bool)
      requires Valid()
      modifies this`index, this`contents
      ensures found <==> codec.num(id) < |old(index)|
      ensures Valid() && contents == Effect(codec, old(contents), Op.Remove(id))
      ensures |index| == |old(index)| && forall n :: 0 <= n < |index| ==> index[n].id == old(index)[n].id
    {
      var num := codec.num(id);
      if |index| <= num {
        return false;
      }
      assert Represents(codec, index, log, contents, num);
      if index[num].id == id {
        index := index[num := index[num].(size := 0)];
        contents := contents - {num};
        forall n | 0 <= n < |index| ensures Represents(codec, index, log, contents, n) {
          assert Represents(codec, old(index), log, old(contents), n);
        }
      }
      return true;
    }

    method Contains(id: Id) returns (r: bool)
      requires Valid()
      ensures r <==> id != codec.zero && codec.num(id) in contents && contents[codec.num(id)].id == id
    {
      if id == codec.zero || |index| <= codec.num(id) {
        return false;
      }
      var e := index[codec.num(id)];
      assert Represents(codec, index, log, contents, codec.num(id));
      return e.id == id && e.size > 0;
    }

    method ReadBlock(n: nat) returns (r: Option<Block>)
      requires Valid() && n < |index|
      ensures r == if n in contents then Some(contents[n].block) else None
    {
      assert Represents(codec, index, log, contents, n);
      var e := index[n];
      r := codec.unpack(log[e.pos..e.pos + e.size]);
    }

    method FetchOptional(id: Id) returns (r: Option<Block>)
      requires Valid()
      ensures r
        == if codec.num(id) in contents && contents[codec.num(id)].id == id
              && codec.id(contents[codec.num(id)].block) == id
                   then Some(contents[codec.num(id)].block) else None
    {
      var num := codec.num(id);
      if |index| <= num || index[num].id != id {
        assert num < |index| ==> Represents(codec, index, log, contents, num);
        return None;
      }
      assert Represents(codec, index, log, contents, num);
      r := ReadBlock(num);
      if r.Some? && codec.id(r.value) != index[num].id {
        r := None;
      }
    }

    method FetchByNumber(n: nat) returns (r: Option<Block>)
      requires Valid()
      ensures r
        == if n in contents && codec.id(contents[n].block) == contents[n].id then Some(contents[n].block) else None
    {
      if |index| <= n {
        return None;
      }
      assert Represents(codec, index, log, contents, n);
      r := ReadBlock(n);
      if r.Some? && codec.id(r.value) != index[n].id {
        r := None;
      }
    }

    /** The scan shared by last and last_id; it begins by reading the last entry once more. */
    method LastEntry() returns (n: nat, live: bool)
      requires Valid()
      ensures live ==> IsLast(contents, n) && n < |index|
      ensures !live ==> contents == map[]
    {
      if |index| == 0 {
        return 0, false;
      }
      n := |index| - 1;
      var pos := |index|;
      while index[n].size == 0 && pos > 0
        invariant 0 <= pos <= |index| && n < |index| && (n == pos || (pos == |index| == n + 1))
        invariant forall k <- contents :: k <= n
        decreases pos
      {
        pos := pos - 1;
        assert Represents(codec, index, log, contents, n);
        n := pos;
      }
      assert Represents(codec, index, log, contents, n);
      live := index[n].size > 0;
    }

    method Last() returns (r: Option<Block>)
      requires Valid()
      ensures r.None? <==> contents == map[]
      ensures r.Some? ==> exists n :: IsLast(contents, n) && r == Some(contents[n].block)
    {
      var n, live := LastEntry();
      if !live {
        return None;
      }
      r := ReadBlock(n);
    }

    method LastId() returns (r: Option<Id>)
      requires Valid()
      ensures r.None? <==> contents == map[]
      ensures r.Some? ==> IsLast(contents, codec.num(r.value)) && contents[codec.num(r.value)].id == r.value
    {
      var n, live := LastEntry();
      if !live {
        return None;
      }
      assert Represents(codec, index, log, contents, n);
      return Some(index[n].id);
    }

    /** Any sequence of stores and removals. */
    method Perform(ops: seq<Op<Block, Id>>)
      requires Valid()
      modifies this
      ensures Valid() && contents == Effects(codec, old(contents), ops) && old(log) <= log
    {
      for i := 0 to |ops|
        invariant Valid() && contents == Effects(codec, old(contents), ops[..i]) && old(log) <= log
      {
        assert ops[..i + 1][..i] == ops[..i];
        match ops[i]
        case Store(id, b) => Store(id, b);
        case Remove(id) => var found := Remove(id);
      }
      assert ops[..|ops|] == ops;
    }

    /**
     * fetch_block_id reads the entry and does not ask whether it is a tombstone: it returns the id of every stored
     * block,
     * and what it returns belongs to a stored block exactly when the entry has a size.
     */
    method FetchBlockId(n: nat) returns (r: Option<Id>)
      requires Valid() && n != 0
      ensures r.Some? <==> n < |index| && index[n].id != codec.zero
      ensures r.Some? ==> r.value == index[n].id && (n in contents && contents[n].id == r.value <==> index[n].size > 0)
      ensures n in contents && contents[n].id != codec.zero ==> r == Some(contents[n].id)
    {
      assert n < |index| ==> Represents(codec, index, log, contents, n);
      if |index| <= n || index[n].id == codec.zero {
        return None;
      }
      return Some(index[n].id);
    }

    /** The gap loop of reindex: exactly the blocks above the gap go. */
    method DropAboveGap(i: nat)
      requires Valid()
      modifies this`index, this`contents
      ensures Valid() && contents == map k <- old(contents) | k <= i :: old(contents)[k]
    {
      while true
        invariant Valid()
        invariant forall k <- contents :: k in old(contents) && contents[k] == old(contents)[k]
        invariant forall k <- old(contents) :: k <= i ==> k in contents
        decreases |contents|
      {
        var last := LastId();
        if last.None? || codec.num(last.value) <= i {
          break;
        }
        MapSum.Shrinks(contents, codec.num(last.value));
        var found := Remove(last.value);
      }
    }
  }

  /** In every database: a block that is stored and removed is gone, and its id is still fetched by its number. */
  method RemovedIdIsStillFetched<Block(!new), Id(==, !new)>(db: BlockDatabase<Block, Id>,
                                       b: Block) returns (r: Option<Id>)
    requires db.Valid() && db.codec.id(b) != db.codec.zero && db.codec.num(db.codec.id(b)) != 0
    modifies db
    ensures db.Valid() && db.contents == old(db.contents) - {db.codec.num(db.codec.id(b))}
    ensures r == Some(db.codec.id(b))
  {
    var id := db.codec.id(b);
    db.Store(db.codec.zero, b);
    var found := db.Remove(id);
    r := db.FetchBlockId(db.codec.num(id));
  }

  /** The input: a codec with one-byte blocks, and block 7 stored in an empty database and removed. */
  method RemovedIdExample() returns (gone: bool, r: Option<nat>)
    ensures gone && r == Some(7)
  {
    var c: Codec<byte, nat> := Codec((b: byte) => [b], (s: seq<byte>) => if |s| == 1 then Some(s[0]) else None,
                                     (b: byte) => b as nat, (n: nat) => n, 0);
    var db := new BlockDatabase(c);
    r := RemovedIdIsStillFetched(db, 7);
    var there := db.Contains(7);
    gone := !there;
  }
}
