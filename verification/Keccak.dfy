/** The sponge of Keccak.cpp: absorbing in add, padding in processBuffer, hex output in getHash. */
module Keccak {
  import opened KeccakSpec
  import opened KeccakTables

  datatype Byte = Byte(bits: bv8)

  /** Eight bytes as a lane, the first byte in the low bits. */
  function LaneOf(b: seq<Byte>): Lane
    requires |b| == 8
  {
    Lane((b[0].bits as bv64) | ((b[1].bits as bv64) << 8) | ((b[2].bits as bv64) << 16) | ((b[3].bits as bv64) << 24) |
         ((b[4].bits as bv64) << 32) | ((b[5].bits as bv64) << 40) | ((b[6].bits as bv64) << 48) |
         ((b[7].bits as bv64) << 56))
  }

  function ZeroState(): (s: State)
    ensures |s| == 25
  {
    seq(25, _ => Lane(0))
  }

  /** S xor (block || 0^c). */
  function Mix(s: State, block: seq<Byte>): (r: State)
    requires |s| == 25 && |block| % 8 == 0 && |block| <= 200
    ensures |r| == 25
  {
    seq(25, i requires 0 <= i < 25 => if i < |block| / 8 then Xor(s[i], LaneOf(block[8 * i..8 * i + 8])) else s[i])
  }

  // ---- in-place round ----

  /** The theta loop: every column i gets d[i] mixed in by f. */
  method EachColumn<T>(h: array<T>, d: seq<T>, f: (T, T) -> T)
    requires h.Length == 25 && |d| == 5
    modifies h
    ensures h[..] == ColumnsWith(old(h[..]), d, f)
  {
    for i := 0 to 5
      invariant forall j :: 0 <= j < 25 ==> h[j] == if j % 5 < i then f(old(h[j]), d[j % 5]) else old(h[j])
    {
      h[i] := f(h[i], d[i]);
      h[i + 5] := f(h[i + 5], d[i]);
      h[i + 10] := f(h[i + 10], d[i]);
      h[i + 15] := f(h[i + 15], d[i]);
      h[i + 20] := f(h[i + 20], d[i]);
    }
  }

  /** The chi loop: in every row, lane x becomes f of lanes x, x + 1 and x + 2. */
  method EachRow<T>(h: array<T>, f: (T, T, T) -> T)
    requires h.Length == 25
    modifies h
    ensures h[..] == RowsWith(old(h[..]), f)
  {
    ghost var s, r := h[..], RowsWith(h[..], f);
    var j := 0;
    while j < 25
      invariant j % 5 == 0 && j <= 25
      invariant h[..] == r[..j] + s[j..]
    {
      RowFive(s, r, f, j);
      ghost var a := h[..];
      OneRow(h, j, f);
      Extend(s, r, a, h[..], j);
      j := j + 5;
    }
  }

  lemma Extend<T>(s: seq<T>, r: seq<T>, a: seq<T>, b: seq<T>, j: nat)
    requires |s| == |r| == |a| == |b| == 25 && j <= 20 && a == r[..j] + s[j..]
    requires b[j] == r[j] && b[j + 1] == r[j + 1] && b[j + 2] == r[j + 2] && b[j + 3] == r[j + 3]
    requires b[j + 4] == r[j + 4]
    requires forall i :: 0 <= i < 25 && !(j <= i < j + 5) ==> b[i] == a[i]
    ensures b == r[..j + 5] + s[j + 5..]
  {}

  method OneRow<T>(h: array<T>, j: nat, f: (T, T, T) -> T)
    requires h.Length == 25 && j <= 20
    modifies h
    ensures h[j] == f(old(h[j]), old(h[j + 1]), old(h[j + 2]))
    ensures h[j + 1] == f(old(h[j + 1]), old(h[j + 2]), old(h[j + 3]))
    ensures h[j + 2] == f(old(h[j + 2]), old(h[j + 3]), old(h[j + 4]))
    ensures h[j + 3] == f(old(h[j + 3]), old(h[j + 4]), old(h[j]))
    ensures h[j + 4] == f(old(h[j + 4]), old(h[j]), old(h[j + 1]))
    ensures forall i :: 0 <= i < 25 && !(j <= i < j + 5) ==> h[i] == old(h[i])
  {
    var one, two := h[j], h[j + 1];
    h[j] := f(h[j], two, h[j + 2]);
    h[j + 1] := f(h[j + 1], h[j + 2], h[j + 3]);
    h[j + 2] := f(h[j + 2], h[j + 3], h[j + 4]);
    h[j + 3] := f(h[j + 3], h[j + 4], one);
    h[j + 4] := f(h[j + 4], one, two);
  }

  lemma RowFive<T>(s: seq<T>, r: seq<T>, f: (T, T, T) -> T, j: nat)
    requires |s| == 25 && j <= 20 && j % 5 == 0 && r == RowsWith(s, f)
    ensures r[j] == f(s[j], s[j + 1], s[j + 2])
    ensures r[j + 1] == f(s[j + 1], s[j + 2], s[j + 3])
    ensures r[j + 2] == f(s[j + 2], s[j + 3], s[j + 4])
    ensures r[j + 3] == f(s[j + 3], s[j + 4], s[j])
    ensures r[j + 4] == f(s[j + 4], s[j], s[j + 1])
  {
    RowFiveAt(s, f, j);
  }

  lemma RowFiveAt<T>(s: seq<T>, f: (T, T, T) -> T, j: nat)
    requires |s| == 25 && j <= 20 && j % 5 == 0
    ensures RowAt(s, f, j) == f(s[j], s[j + 1], s[j + 2])
    ensures RowAt(s, f, j + 1) == f(s[j + 1], s[j + 2], s[j + 3])
    ensures RowAt(s, f, j + 2) == f(s[j + 2], s[j + 3], s[j + 4])
    ensures RowAt(s, f, j + 3) == f(s[j + 3], s[j + 4], s[j])
    ensures RowAt(s, f, j + 4) == f(s[j + 4], s[j], s[j + 1])
  {}

  method Parities(c: seq<Lane>, ghost s: State) returns (d: seq<Lane>)
    requires |s| == 25 && |c| == 5 && forall j :: 0 <= j < 5 ==> c[j] == Column(s, j)
    ensures d == seq(5, x requires 0 <= x < 5 => ThetaD(s, x))
  {
    hide *;
    ghost var e := seq(5, x requires 0 <= x < 5 => ThetaD(s, x));
    d := [];
    for i := 0 to 5
      invariant d == e[..i]
    {
      ParityIsD(s, c, i);
      d := d + [Parity(c, i)];
    }
  }

  /** The source's `one` of theta, from the column parities. */
  function Parity(c: seq<Lane>, i: nat): Lane
    requires |c| == 5 && i < 5
  {
    Xor(c[Mod5(i + 4)], RotateLeft(c[Mod5(i + 1)], 1))
  }

  lemma ParityIsD(s: State, c: seq<Lane>, i: nat)
    requires |s| == 25 && |c| == 5 && i < 5 && forall j :: 0 <= j < 5 ==> c[j] == Column(s, j)
    ensures Parity(c, i) == ThetaD(s, i)
  {
    Rotate1(c[Mod5(i + 1)]);
  }

  function Mod5(x: nat): (r: nat)
    requires x <= 9
    ensures r == x % 5
  {
    if x < 5 then x else x - 5
  }

  lemma SliceSnoc(before: Message, data: Message, i: nat, j: nat)
    requires i <= j <= |data|
    ensures before + data[..i] + data[i..j] == before + data[..j]
  {
    assert data[..j] == data[..i] + data[i..j];
  }

  // ---- sponge ----

  predicate ValidRate(rate: nat) {
    rate % 8 == 0 && 0 < rate <= 200
  }

  type Message = seq<Byte>

  /** The whole blocks of a message, and what is left after them. */
  function Blocks(m: Message, rate: nat): (bs: seq<Message>)
    requires rate > 0
    ensures forall i :: 0 <= i < |bs| ==> |bs[i]| == rate
  {
    if |m| < rate then [] else [m[..rate]] + Blocks(m[rate..], rate)
  }

  function Tail(m: Message, rate: nat): (t: Message)
    requires rate > 0
    ensures |t| < rate && |t| <= |m|
  {
    if |m| < rate then m else Tail(m[rate..], rate)
  }

  /** Absorbing blocks one by one, section 4 of FIPS 202, steps 4 to 6. */
  function Absorb(s: State, rate: nat, bs: seq<Message>): (r: State)
    requires |s| == 25 && ValidRate(rate) && forall i :: 0 <= i < |bs| ==> |bs[i]| == rate
    ensures |r| == 25
  {
    if bs == [] then s else KeccakF(Mix(Absorb(s, rate, bs[..|bs|-1]), bs[|bs|-1]))
  }

  /** pad10*1 of section 5.1 on whole bytes: a 1 bit, zeros, and a 1 bit that ends the block. */
  function PadTail(t: Message, rate: nat): (b: Message)
    requires |t| < rate
    ensures |b| == rate
  {
    if |t| == rate - 1 then t + [Byte(0x81)]
    else t + [Byte(1)] + seq(rate - |t| - 2, _ => Byte(0)) + [Byte(0x80)]
  }

  function Bit(b: Byte, k: nat): bool
    requires k < 8
  {
    (b.bits >> k) & 1 == 1
  }

  /** Bit by bit, the low bit of a byte first: the tail, a 1, zeros, and a 1 that ends the block. */
  lemma PadBits(t: Message, rate: nat, i: nat, k: nat)
    requires |t| < rate && i < rate && k < 8
    ensures Bit(PadTail(t, rate)[i], k) <==>
      if i < |t| then Bit(t[i], k) else 8 * i + k == 8 * |t| || 8 * i + k == 8 * rate - 1
  {
    PadBytes(k as bv8, k);
  }

  lemma PadBytes(j: bv8, k: nat)
    requires k < 8 && j == k as bv8
    ensures !Bit(Byte(0), k) && (Bit(Byte(1), k) <==> k == 0) && (Bit(Byte(0x80), k) <==> k == 7)
    ensures Bit(Byte(0x81), k) <==> k == 0 || k == 7
  {
    if k == 0 {} else if k == 1 {} else if k == 2 {} else if k == 3 {} else if k == 4 {} else if k == 5 {}
    else if k == 6 {} else {}
  }

  function PaddedBlocks(m: Message, rate: nat): (bs: seq<Message>)
    requires rate > 0
    ensures forall i :: 0 <= i < |bs| ==> |bs[i]| == rate
  {
    Blocks(m, rate) + [PadTail(Tail(m, rate), rate)]
  }

  /** Adding bytes that do not fill the block only grows the tail; filling it makes one more block. */
  lemma {:induction false} AppendToTail(m: Message, d: Message, rate: nat)
    requires rate > 0 && |Tail(m, rate)| + |d| <= rate
    ensures |Tail(m, rate)| + |d| < rate ==>
              Blocks(m + d, rate) == Blocks(m, rate) && Tail(m + d, rate) == Tail(m, rate) + d
    ensures |Tail(m, rate)| + |d| == rate ==>
              Blocks(m + d, rate) == Blocks(m, rate) + [Tail(m, rate) + d] && Tail(m + d, rate) == []
    decreases |m|
  {
    if |m| >= rate {
      AppendToTail(m[rate..], d, rate);
      assert (m + d)[..rate] == m[..rate] && (m + d)[rate..] == m[rate..] + d;
    } else if |m| + |d| == rate {
      assert (m + d)[..rate] == m + d && (m + d)[rate..] == [];
    }
  }

  lemma {:induction false} MessageFromBlocks(m: Message, n: Message, rate: nat)
    requires rate > 0 && Blocks(m, rate) == Blocks(n, rate) && Tail(m, rate) == Tail(n, rate)
    ensures m == n
    decreases |m|
  {
    if |m| >= rate {
      assert Blocks(m, rate)[0] == m[..rate];
      assert |n| >= rate;
      assert Blocks(n, rate)[0] == n[..rate];
      assert Blocks(m, rate)[1..] == Blocks(m[rate..], rate) && Blocks(n, rate)[1..] == Blocks(n[rate..], rate);
      MessageFromBlocks(m[rate..], n[rate..], rate);
      assert m == m[..rate] + m[rate..] && n == n[..rate] + n[rate..];
    }
  }

  lemma PadTailInjective(t: Message, u: Message, rate: nat)
    requires |t| < rate && |u| < rate && PadTail(t, rate) == PadTail(u, rate)
    ensures t == u
  {
    var a, b := PadTail(t, rate), PadTail(u, rate);
    assert a[rate - 1] == b[rate - 1];
    assert a[|t|] == b[|t|] && a[|u|] == b[|u|];
    assert a[..|t|] == t && b[..|u|] == u;
  }

  /** Different messages are absorbed as different block lists. */
  lemma PaddingInjective(m: Message, n: Message, rate: nat)
    requires rate > 0 && PaddedBlocks(m, rate) == PaddedBlocks(n, rate)
    ensures m == n
  {
    var a, b := PaddedBlocks(m, rate), PaddedBlocks(n, rate);
    assert a[|a| - 1] == b[|b| - 1] && a[..|a| - 1] == b[..|b| - 1];
    assert a[..|a| - 1] == Blocks(m, rate) && b[..|b| - 1] == Blocks(n, rate);
    PadTailInjective(Tail(m, rate), Tail(n, rate), rate);
    MessageFromBlocks(m, n, rate);
  }

  predicate Variant(bits: nat) {
    bits == 224 || bits == 256 || bits == 384 || bits == 512
  }

  function Rate(bits: nat): (r: nat)
    requires Variant(bits)
    ensures ValidRate(r) && 0 < r <= 144
  {
    200 - 2 * (bits / 8)
  }

  lemma AbsorbSnoc(rate: nat, bs: seq<Message>, b: Message)
    requires ValidRate(rate) && |b| == rate && forall i :: 0 <= i < |bs| ==> |bs[i]| == rate
    ensures Absorb(ZeroState(), rate, bs + [b]) == KeccakF(Mix(Absorb(ZeroState(), rate, bs), b))
  {
    assert (bs + [b])[..|bs|] == bs;
  }

  lemma CountSnoc(rate: nat, n: nat)
    ensures rate * (n + 1) == rate * n + rate
  {}

  function LaneByte(l: Lane, j: nat): Byte
    requires j < 8
  {
    Byte(((if j == 0 then l.bits else if j == 1 then l.bits >> 8 else if j == 2 then l.bits >> 16
      else if j == 3 then l.bits >> 24 else if j == 4 then l.bits >> 32 else if j == 5 then l.bits >> 40
      else if j == 6 then l.bits >> 48 else l.bits >> 56) & 0xff) as bv8)
  }

  /** Reading a lane byte by byte undoes packing it. */
  lemma LaneBytes(b: seq<Byte>, j: nat)
    requires |b| == 8 && j < 8
    ensures LaneByte(LaneOf(b), j) == b[j]
  {
    PackedBytes(b[0].bits, b[1].bits, b[2].bits, b[3].bits, b[4].bits, b[5].bits, b[6].bits, b[7].bits);
  }

  lemma PackedBytes(a: bv8, b: bv8, c: bv8, d: bv8, e: bv8, f: bv8, g: bv8, h: bv8)
    ensures var x := (a as bv64) | ((b as bv64) << 8) | ((c as bv64) << 16) | ((d as bv64) << 24) |
                     ((e as bv64) << 32) | ((f as bv64) << 40) | ((g as bv64) << 48) | ((h as bv64) << 56);
      && (x & 0xff) as bv8 == a && ((x >> 8) & 0xff) as bv8 == b && ((x >> 16) & 0xff) as bv8 == c
      && ((x >> 24) & 0xff) as bv8 == d && ((x >> 32) & 0xff) as bv8 == e && ((x >> 40) & 0xff) as bv8 == f
      && ((x >> 48) & 0xff) as bv8 == g && ((x >> 56) & 0xff) as bv8 == h
  {}

  /** The first n bytes of the state. */
  function Squeeze(s: State, n: nat): (m: Message)
    requires |s| == 25 && n <= 200
    ensures |m| == n
  {
    seq(n, k requires 0 <= k < n => LaneByte(s[k / 8], k % 8))
  }

  /**
   * Reading the state byte by byte gives back a block that was mixed into zeros: both sides use the same byte
   * order.
   */
  lemma SqueezeMixed(block: Message)
    requires |block| % 8 == 0 && |block| <= 200
    ensures Squeeze(Mix(ZeroState(), block), |block|) == block
  {
    hide LaneOf, LaneByte;
    var s := Mix(ZeroState(), block);
    forall k | 0 <= k < |block| ensures Squeeze(s, |block|)[k] == block[k] {
      var i, j := k / 8, k % 8;
      var lane := block[8 * i..8 * i + 8];
      XorZero(LaneOf(lane));
      LaneBytes(lane, j);
      assert lane[j] == block[k];
    }
  }

  lemma XorZero(l: Lane)
    ensures Xor(Lane(0), l) == l
  {}

  function HexDigit(n: bv8): char {
    if n == 0 then '0' else if n == 1 then '1' else if n == 2 then '2' else if n == 3 then '3' else
    if n == 4 then '4' else
    if n == 5 then '5' else if n == 6 then '6' else if n == 7 then '7' else if n == 8 then '8' else
    if n == 9 then '9' else
    if n == 10 then 'a' else if n == 11 then 'b' else if n == 12 then 'c' else if n == 13 then 'd' else
    if n == 14 then 'e' else 'f'
  }

  lemma HexDigitExact(n: bv8)
    requires n < 16
    ensures HexDigit(n) == "0123456789abcdef"[n as int]
  {
    var digits := "0123456789abcdef";
    if n < 8 {
      assert n == 0 || n == 1 || n == 2 || n == 3 || n == 4 || n == 5 || n == 6 || n == 7;
    } else {
      assert n == 8 || n == 9 || n == 10 || n == 11 || n == 12 || n == 13 || n == 14 || n == 15;
    }
  }

  function HexByte(b: Byte): string {
    [HexDigit(b.bits >> 4), HexDigit(b.bits & 15)]
  }

  function Hex(m: Message): string {
    if m == [] then "" else Hex(m[..|m|-1]) + HexByte(m[|m|-1])
  }

  lemma SqueezeSnoc(s: State, n: nat)
    requires |s| == 25 && n < 200
    ensures Hex(Squeeze(s, n + 1)) == Hex(Squeeze(s, n)) + HexByte(LaneByte(s[n / 8], n % 8))
  {
    assert Squeeze(s, n + 1)[..n] == Squeeze(s, n);
  }

  /** KECCAK[2 * bits] of section 5.2, with no domain suffix, cut to `bits` bits and printed in hex. */
  function Digest(m: Message, bits: nat): string
    requires Variant(bits)
  {
    Hex(Squeeze(FinalState(m, Rate(bits)), bits / 8))
  }

  /** The state after the padded message. */
  function FinalState(m: Message, rate: nat): (s: State)
    requires ValidRate(rate)
    ensures |s| == 25
  {
    Absorb(ZeroState(), rate, PaddedBlocks(m, rate))
  }

  class Hasher {
    const hash: array<Lane>
    const buffer: array<Byte>
    const bits: nat
    var numBytes: nat
    var bufferSize: nat
    ghost var stream: Message  // everything added since the last reset

    ghost predicate Shape() {
      hash.Length == 25 && buffer.Length == 144 && Variant(bits)
    }

    ghost predicate Valid()
      reads this, hash, buffer
    {
      && Shape()
      && bufferSize < Rate(bits)
      && hash[..] == Absorb(ZeroState(), Rate(bits), Blocks(stream, Rate(bits)))
      && buffer[..bufferSize] == Tail(stream, Rate(bits))
      && numBytes == Rate(bits) * |Blocks(stream, Rate(bits))|
    }

    constructor (variant: nat)
      requires Variant(variant)
      ensures Valid() && bits == variant && stream == [] && fresh(hash) && fresh(buffer)
    {
      bits := variant;
      hash := new Lane[25](_ => Lane(0));
      buffer := new Byte[144](_ => Byte(0));
      numBytes, bufferSize, stream := 0, 0, [];
      new;
      assert hash[..] == ZeroState();
    }

    method Reset()
      requires Shape()
      modifies this, hash
      ensures Valid() && stream == []
    {
      for i := 0 to 25
        invariant forall j :: 0 <= j < i ==> hash[j] == Lane(0)
      {
        hash[i] := Lane(0);
      }
      numBytes, bufferSize, stream := 0, 0, [];
      assert hash[..] == ZeroState();
    }

    /** add: whatever the split into calls, the state depends on the concatenation alone. */
    method Add(data: Message)
      requires Valid()
      modifies this, hash, buffer
      ensures Valid() && stream == old(stream) + data
    {
      hide *;
      var pos := 0;
      if bufferSize > 0 {
        pos := TopUp(data);
      }
      assert data[..0] == [] && stream == old(stream) + data[..pos];
      if pos == |data| {
        assert data[..pos] == data;
        return;
      }
      pos := AddBlocks(data, pos, old(stream));
      AddRest(data[pos..]);
      assert data == data[..pos] + data[pos..];
    }

    /** The middle loop of add: whole blocks straight from the input. */
    method AddBlocks(data: Message, start: nat, ghost before: Message) returns (pos: nat)
      requires Valid() && start <= |data| && bufferSize == 0 && stream == before + data[..start]
      modifies this, hash
      ensures Valid() && pos <= |data| < pos + Rate(bits) && bufferSize == 0 && stream == before + data[..pos]
    {
      hide Absorb, Blocks, Tail;
      pos := start;
      while |data| - pos >= Rate(bits)
        invariant pos <= |data| && bufferSize == 0 && Valid() && stream == before + data[..pos]
      {
        AddBlock(data[pos..pos + Rate(bits)]);
        SliceSnoc(before, data, pos, pos + Rate(bits));
        pos := pos + Rate(bits);
      }
    }

    /** The buffered part of add: fill the buffer, absorb it when it is full. */
    method TopUp(data: Message) returns (pos: nat)
      requires Valid()
      modifies this, hash, buffer
      ensures Valid() && pos <= |data| && stream == old(stream) + data[..pos]
      ensures pos == |data| || bufferSize == 0
    {
      hide KeccakF;
      ghost var rate, m := Rate(bits), stream;
      pos := FillBuffer(data);
      AppendToTail(m, data[..pos], rate);
      if bufferSize == Rate(bits) {
        AbsorbNext(buffer[..Rate(bits)], rate, Blocks(m, rate));
        CountSnoc(rate, |Blocks(m, rate)|);
        numBytes := numBytes + Rate(bits);
        bufferSize := 0;
      }
      stream := m + data[..pos];
    }

    method AddBlock(block: Message)
      requires Valid() && bufferSize == 0 && |block| == Rate(bits)
      modifies this, hash
      ensures Valid() && bufferSize == 0 && stream == old(stream) + block
    {
      hide KeccakF;
      ghost var rate, bs := Rate(bits), Blocks(stream, Rate(bits));
      AppendToTail(stream, block, rate);
      assert Tail(stream, rate) + block == block;
      AbsorbNext(block, rate, bs);
      CountSnoc(rate, |bs|);
      numBytes := numBytes + Rate(bits);
      stream := stream + block;
    }

    method AbsorbNext(block: Message, ghost rate: nat, ghost bs: seq<Message>)
      requires hash.Length == 25 && ValidRate(rate) && |block| == rate
      requires forall i :: 0 <= i < |bs| ==> |bs[i]| == rate
      requires hash[..] == Absorb(ZeroState(), rate, bs)
      modifies hash
      ensures hash[..] == Absorb(ZeroState(), rate, bs + [block])
    {
      AbsorbSnoc(rate, bs, block);
      ProcessBlock(block);
    }

    method AddRest(rest: Message)
      requires Valid() && bufferSize == 0 && |rest| < Rate(bits)
      modifies this, buffer
      ensures Valid() && stream == old(stream) + rest
    {
      hide Absorb;
      AppendToTail(stream, rest, Rate(bits));
      assert Tail(stream, Rate(bits)) + rest == rest;
      KeepRest(rest);
      stream := stream + rest;
    }

    /** The first loop of add. */
    method FillBuffer(data: Message) returns (pos: nat)
      requires Shape() && bufferSize < Rate(bits)
      modifies this`bufferSize, buffer
      ensures pos <= |data| && bufferSize == old(bufferSize) + pos <= Rate(bits)
      ensures pos == |data| || bufferSize == Rate(bits)
      ensures buffer[..bufferSize] == old(buffer[..bufferSize]) + data[..pos]
    {
      pos := 0;
      while pos < |data| && bufferSize < Rate(bits)
        invariant pos <= |data| && bufferSize == old(bufferSize) + pos <= Rate(bits)
        invariant buffer[..bufferSize] == old(buffer[..bufferSize]) + data[..pos]
      {
        buffer[bufferSize] := data[pos];
        bufferSize := bufferSize + 1;
        pos := pos + 1;
      }
    }

    /** The last loop of add. */
    method KeepRest(rest: Message)
      requires Shape() && bufferSize == 0 && |rest| < Rate(bits)
      modifies this`bufferSize, buffer
      ensures bufferSize == |rest| && buffer[..bufferSize] == rest
    {
      for i := 0 to |rest|
        invariant bufferSize == i && buffer[..i] == rest[..i]
      {
        buffer[bufferSize] := rest[i];
        bufferSize := bufferSize + 1;
      }
    }

    /** processBuffer: pad what is buffered and absorb it. */
    method ProcessBuffer()
      requires Valid()
      modifies hash, buffer
      ensures hash[..] == FinalState(stream, Rate(bits))
    {
      PadBuffer();
      AbsorbNext(buffer[..Rate(bits)], Rate(bits), Blocks(stream, Rate(bits)));
    }

    method PadBuffer()
      requires Shape() && bufferSize < Rate(bits)
      modifies buffer
      ensures buffer[..Rate(bits)] == PadTail(old(buffer[..bufferSize]), Rate(bits))
    {
      var blockSize := Rate(bits);
      ghost var t := buffer[..bufferSize];
      var offset := bufferSize;
      buffer[offset] := Byte(1);
      offset := offset + 1;
      while offset < blockSize
        invariant bufferSize < offset <= blockSize
        invariant buffer[..bufferSize] == t && buffer[bufferSize] == Byte(1)
        invariant forall k :: bufferSize < k < offset ==> buffer[k] == Byte(0)
      {
        buffer[offset] := Byte(0);
        offset := offset + 1;
      }
      buffer[blockSize - 1] := Byte(buffer[blockSize - 1].bits | 0x80);
    }

    /** getHash: the hex digest of everything added since the last reset. */
    method GetHash() returns (result: string)
      requires Valid()
      modifies hash, buffer
      ensures result == Digest(stream, bits)
    {
      ProcessBuffer();
      result := HexOut();
    }

    method HexOut() returns (result: string)
      requires Shape()
      ensures result == Hex(Squeeze(hash[..], bits / 8))
    {
      var hashLength := bits / 64;
      result := "";
      for i := 0 to hashLength
        invariant result == Hex(Squeeze(hash[..], 8 * i))
      {
        result := HexLane(result, i, 8);
      }
      result := HexLane(result, hashLength, (bits - hashLength * 64) / 8);
    }

    /** Appends n bytes of lane i, the low one first. */
    method HexLane(prefix: string, i: nat, n: nat) returns (result: string)
      requires hash.Length == 25 && i < 25 && n <= 8
      requires prefix == Hex(Squeeze(hash[..], 8 * i))
      ensures result == Hex(Squeeze(hash[..], 8 * i + n))
    {
      hide *;
      result := prefix;
      for j := 0 to n
        invariant result == Hex(Squeeze(hash[..], 8 * i + j))
      {
        assert (8 * i + j) / 8 == i && (8 * i + j) % 8 == j;
        SqueezeSnoc(hash[..], 8 * i + j);
        result := result + HexByte(LaneByte(hash[i], j));
      }
    }

    /** operator(): one-shot hashing, independent of what was added before. */
    method Hash(data: Message) returns (result: string)
      requires Shape()
      modifies this, hash, buffer
      ensures result == Digest(data, bits)
    {
      Reset();
      Add(data);
      assert [] + data == data;
      result := GetHash();
    }

    method ThetaStep()
      requires hash.Length == 25
      modifies hash
      ensures hash[..] == Theta(old(hash[..]))
    {
      ghost var s := hash[..];
      var c := Coefficients();
      var d := Parities(c, s);
      EachColumn(hash, d, Xor);
    }

    method Coefficients() returns (c: seq<Lane>)
      requires hash.Length == 25
      ensures |c| == 5 && forall j :: 0 <= j < 5 ==> c[j] == Column(hash[..], j)
    {
      c := [];
      for i := 0 to 5
        invariant |c| == i && forall j :: 0 <= j < i ==> c[j] == Column(hash[..], j)
      {
        c := c + [Xor(Xor(Xor(Xor(hash[i], hash[i + 5]), hash[i + 10]), hash[i + 15]), hash[i + 20])];
      }
    }

    method Cycle0(first: Lane) returns (last: Lane)
      requires hash.Length == 25
      modifies hash
      ensures hash[10] == Rol(first, 1)
      ensures hash[7] == Rol(old(hash[10]), 3)
      ensures hash[11] == Rol(old(hash[7]), 6)
      ensures hash[17] == Rol(old(hash[11]), 10)
      ensures hash[18] == Rol(old(hash[17]), 15)
      ensures hash[3] == Rol(old(hash[18]), 21)
      ensures last == old(hash[3])
      ensures forall i ::
        0 <= i < 25 && i != 10 && i != 7 && i != 11 && i != 17 && i != 18 && i != 3 ==> hash[i] == old(hash[i])
    {
      hide Rol, RotateLeft;
      last := first;
      var one: Lane;
      Rotate1(last);
      one := hash[10]; hash[10] := RotateLeft(last, 1); last := one;
      Rotate3(last);
      one := hash[7]; hash[7] := RotateLeft(last, 3); last := one;
      Rotate6(last);
      one := hash[11]; hash[11] := RotateLeft(last, 6); last := one;
      Rotate10(last);
      one := hash[17]; hash[17] := RotateLeft(last, 10); last := one;
      Rotate15(last);
      one := hash[18]; hash[18] := RotateLeft(last, 15); last := one;
      Rotate21(last);
      one := hash[3]; hash[3] := RotateLeft(last, 21); last := one;
    }

    method Cycle1(first: Lane) returns (last: Lane)
      requires hash.Length == 25
      modifies hash
      ensures hash[5] == Rol(first, 28)
      ensures hash[16] == Rol(old(hash[5]), 36)
      ensures hash[8] == Rol(old(hash[16]), 45)
      ensures hash[21] == Rol(old(hash[8]), 55)
      ensures hash[24] == Rol(old(hash[21]), 2)
      ensures hash[4] == Rol(old(hash[24]), 14)
      ensures last == old(hash[4])
      ensures forall i ::
        0 <= i < 25 && i != 5 && i != 16 && i != 8 && i != 21 && i != 24 && i != 4 ==> hash[i] == old(hash[i])
    {
      hide Rol, RotateLeft;
      last := first;
      var one: Lane;
      Rotate28(last);
      one := hash[5]; hash[5] := RotateLeft(last, 28); last := one;
      Rotate36(last);
      one := hash[16]; hash[16] := RotateLeft(last, 36); last := one;
      Rotate45(last);
      one := hash[8]; hash[8] := RotateLeft(last, 45); last := one;
      Rotate55(last);
      one := hash[21]; hash[21] := RotateLeft(last, 55); last := one;
      Rotate2(last);
      one := hash[24]; hash[24] := RotateLeft(last, 2); last := one;
      Rotate14(last);
      one := hash[4]; hash[4] := RotateLeft(last, 14); last := one;
    }

    method Cycle2(first: Lane) returns (last: Lane)
      requires hash.Length == 25
      modifies hash
      ensures hash[15] == Rol(first, 27)
      ensures hash[23] == Rol(old(hash[15]), 41)
      ensures hash[19] == Rol(old(hash[23]), 56)
      ensures hash[13] == Rol(old(hash[19]), 8)
      ensures hash[12] == Rol(old(hash[13]), 25)
      ensures hash[2] == Rol(old(hash[12]), 43)
      ensures last == old(hash[2])
      ensures forall i ::
        0 <= i < 25 && i != 15 && i != 23 && i != 19 && i != 13 && i != 12 && i != 2 ==> hash[i] == old(hash[i])
    {
      hide Rol, RotateLeft;
      last := first;
      var one: Lane;
      Rotate27(last);
      one := hash[15]; hash[15] := RotateLeft(last, 27); last := one;
      Rotate41(last);
      one := hash[23]; hash[23] := RotateLeft(last, 41); last := one;
      Rotate56(last);
      one := hash[19]; hash[19] := RotateLeft(last, 56); last := one;
      Rotate8(last);
      one := hash[13]; hash[13] := RotateLeft(last, 8); last := one;
      Rotate25(last);
      one := hash[12]; hash[12] := RotateLeft(last, 25); last := one;
      Rotate43(last);
      one := hash[2]; hash[2] := RotateLeft(last, 43); last := one;
    }

    method Cycle3(first: Lane) returns (last: Lane)
      requires hash.Length == 25
      modifies hash
      ensures hash[20] == Rol(first, 62)
      ensures hash[14] == Rol(old(hash[20]), 18)
      ensures hash[22] == Rol(old(hash[14]), 39)
      ensures hash[9] == Rol(old(hash[22]), 61)
      ensures hash[6] == Rol(old(hash[9]), 20)
      ensures hash[1] == Rol(old(hash[6]), 44)
      ensures last == old(hash[1])
      ensures forall i ::
        0 <= i < 25 && i != 20 && i != 14 && i != 22 && i != 9 && i != 6 && i != 1 ==> hash[i] == old(hash[i])
    {
      hide Rol, RotateLeft;
      last := first;
      var one: Lane;
      Rotate62(last);
      one := hash[20]; hash[20] := RotateLeft(last, 62); last := one;
      Rotate18(last);
      one := hash[14]; hash[14] := RotateLeft(last, 18); last := one;
      Rotate39(last);
      one := hash[22]; hash[22] := RotateLeft(last, 39); last := one;
      Rotate61(last);
      one := hash[9]; hash[9] := RotateLeft(last, 61); last := one;
      Rotate20(last);
      one := hash[6]; hash[6] := RotateLeft(last, 20); last := one;
      Rotate44(last);
      one := hash[1]; hash[1] := RotateLeft(last, 44); last := one;
    }

    method RhoPi()
      requires hash.Length == 25
      modifies hash
      ensures hash[..] == Pi(Rho(old(hash[..])))
    {
      var last := Cycle0(hash[1]);
      last := Cycle1(last);
      last := Cycle2(last);
      last := Cycle3(last);
      CycleIsPiRho(old(hash[..]), hash[..], Rol);
    }

    method ChiStep()
      requires hash.Length == 25
      modifies hash
      ensures hash[..] == Chi(old(hash[..]))
    {
      EachRow(hash, ChiMix);
    }

    method MixIn(block: seq<Byte>)
      requires hash.Length == 25 && |block| % 8 == 0 && |block| <= 200
      modifies hash
      ensures hash[..] == Mix(old(hash[..]), block)
    {
      ghost var s := hash[..];
      for i := 0 to |block| / 8
        invariant forall j ::
          0 <= j < 25 ==> hash[j] == if j < i then Xor(s[j], LaneOf(block[8 * j..8 * j + 8])) else s[j]
      {
        hash[i] := Xor(hash[i], LaneOf(block[8 * i..8 * i + 8]));
      }
    }

    method OneRound(round: nat)
      requires hash.Length == 25 && round < 24
      modifies hash
      ensures hash[..] == Round(old(hash[..]), round)
    {
      ThetaStep();
      RhoPi();
      ChiStep();
      ghost var t := hash[..];
      MasksAreRoundConstants(round);
      hash[0] := Xor(hash[0], XorMask(round));
      assert hash[..] == t[0 := Xor(t[0], XorMask(round))];
    }

    /** processBlock: mix the block in, then 24 rounds. */
    method ProcessBlock(block: seq<Byte>)
      requires hash.Length == 25 && |block| % 8 == 0 && |block| <= 200
      modifies hash
      ensures hash[..] == KeccakF(Mix(old(hash[..]), block))
    {
      ghost var s := Mix(hash[..], block);
      MixIn(block);
      for round := 0 to 24
        invariant hash[..] == Rounds(s, UpTo(round))
      {
        assert UpTo(round + 1)[..round] == UpTo(round);
        OneRound(round);
      }
    }
  }
}
