/** Batches move as one, are confirmed once, and every foreign unit is backed. */
module CrossChainLaws {
  import opened MapSum
  import opened ForeignIds
  import opened CrossChainSpec

  // ---- families ----

  /** The kinds of record that refer to a batch. */
  predicate Refers(k: Kind) {
    k in {WithSign, CombineSign, SignFinal, ChangeSigner}
  }

  /** A batch, its withdrawals, and what was signed for it. */
  predicate InFamily(records: Records, w: TrxId, id: TrxId)
    requires w in records && id in records
  {
    id == w || id in records[w].origins || (records[id].relate == w && Refers(records[id].kind))
  }

  predicate Stage(st: State) {
    st in {Create, CombineCreate, EthNeedSign, EthSign, Confirm}
  }

  predicate BatchOk(records: Records, w: TrxId)
    requires w in records
  {
    records[w].kind == WithoutSign ==>
      && w != 0 && records[w].origins != [] && Stage(records[w].state) && records[w].relate in records[w].origins
      && forall o <- records[w].origins ::
        o in records && records[o].kind == Withdraw && records[o].state == records[w].state
  }

  /** The stage a referring record is in, given the stage of its batch. */
  function Follows(k: Kind, batch: State): State {
    if k == WithSign && batch == Create then Sign else batch
  }

  predicate ReferenceOk(records: Records, id: TrxId)
    requires id in records
  {
    Refers(records[id].kind) ==>
      && records[id].relate in records && records[records[id].relate].kind == WithoutSign
      && records[id].state == Follows(records[id].kind, records[records[id].relate].state)
      && (records[id].kind != WithSign ==> records[id].state != Create)
      && (records[id].kind == CombineSign ==>
            records[id].state in if IsEth(records[id].symbol) then {EthNeedSign, EthSign, Confirm}
                                 else {CombineCreate, Confirm})
  }

  predicate WithdrawOk(records: Records, id: TrxId)
    requires id in records
  {
    records[id].kind == Withdraw ==> records[id].relate == 0
  }

  predicate DisjointBatches(records: Records) {
    forall v <- records, w <- records :: v != w && records[v].kind == WithoutSign && records[w].kind == WithoutSign ==>
      forall o <- records[v].origins :: o !in records[w].origins
  }

  predicate OneCombine(records: Records) {
    forall c <- records, d <- records ::
      records[c].kind == records[d].kind == CombineSign && records[c].relate == records[d].relate ==> c == d
  }

  /** Every batch is in one state with all its family. */
  predicate Families(records: Records) {
    && (forall id <- records :: BatchOk(records, id) && ReferenceOk(records, id) && WithdrawOk(records, id))
    && DisjointBatches(records) && OneCombine(records)
  }

  /** One record of a moved family. */
  ghost predicate MovesAt(records: Records, x: TrxId, r: Record, w: TrxId, st: State)
    requires w in records && x in records
  {
    && r == records[x].(state := r.state, foreign := r.foreign)
    && r.state == (if InFamily(records, w, x) then st else records[x].state)
    && (InFamily(records, w, x) || r.foreign == records[x].foreign)
  }

  /** r is records with the family of w moved to st, and nothing else but foreign ids of the family changed. */
  ghost predicate Moves(records: Records, r: Records, w: TrxId, st: State)
    requires w in records
  {
    r.Keys == records.Keys && forall x <- records :: MovesAt(records, x, r[x], w, st)
  }

  /** The batch first, then its withdrawals, then the related records in the given states. */
  function Rewritten(records: Records, w: TrxId, x: TrxId, from: set<State>, st: State, f: Foreign, g: Foreign): Record
    requires w in records && x in records
  {
    var a := if x == w then records[x].(state := st) else records[x];
    var b := if x in records[w].origins then Touch(a, st, f) else a;
    if b.relate == w && b.state in from then Touch(b, st, g) else b
  }

  /** The related records that are in a stage the rewriting looks for are exactly those the family has. */
  lemma RewrittenMoves(records: Records, w: TrxId, x: TrxId, from: set<State>, st: State, f: Foreign, g: Foreign)
    requires w in records && records[w].kind == WithoutSign && x in records
    requires BatchOk(records, w) && BatchOk(records, x) && ReferenceOk(records, x) && WithdrawOk(records, x)
    requires Refers(records[x].kind) && records[x].relate == w ==> records[x].state in from
    ensures MovesAt(records, x, Rewritten(records, w, x, from, st, f, g), w, st)
  {
    hide IsEth;
  }

  lemma CombinedAt(records: Records, id: TrxId, w: TrxId, foreign: string, symbol: string, st: State)
    requires w in records && id !in records && st == if IsEth(symbol) then EthNeedSign else CombineCreate
    ensures var r := Combined(records, id, w, foreign, symbol);
      && r.Keys == records.Keys + {id} && r[id] == Record(CombineSign, w, [], st, foreign, NO_FEE, symbol)
      && forall x <- records :: r[x] == Rewritten(records, w, x, {Sign}, st, Set(foreign), Keep)
  {
    hide IsEth, Touch;
  }

  lemma CombinedMoves(records: Records, id: TrxId, w: TrxId, foreign: string, symbol: string)
    requires Families(records) && w in records && records[w].kind == WithoutSign && records[w].state == Create
    requires id !in records
    ensures var st := if IsEth(symbol) then EthNeedSign else CombineCreate;
      && Combined(records, id, w, foreign, symbol).Keys == records.Keys + {id}
      && Moves(records, Combined(records, id, w, foreign, symbol) - {id}, w, st)
      && Combined(records, id, w, foreign, symbol)[id] == Record(CombineSign, w, [], st, foreign, NO_FEE, symbol)
  {
    hide DisjointBatches, OneCombine, IsEth, BatchOk, MovesAt, Combined, Rewritten;
    var st := if IsEth(symbol) then EthNeedSign else CombineCreate;
    CombinedAt(records, id, w, foreign, symbol, st);
    var r := Combined(records, id, w, foreign, symbol) - {id};
    forall x <- records ensures MovesAt(records, x, r[x], w, st) {
      assert BatchOk(records, w) && BatchOk(records, x) && ReferenceOk(records, x);
      RewrittenMoves(records, w, x, {Sign}, st, Set(foreign), Keep);
    }
  }

  lemma FinalizedAt(records: Records, id: TrxId, kind: Kind, c: TrxId, foreign: string, symbol: string)
    requires c in records && id !in records && records[c].relate in records && c != records[c].relate
    requires c !in records[records[c].relate].origins
    ensures var r, w := Finalized(records, id, kind, c, foreign, symbol), records[c].relate;
      && r.Keys == records.Keys + {id} && r[id] == Record(kind, w, [], EthSign, foreign, NO_FEE, symbol)
      && r[c] == records[c].(state := EthSign, foreign := foreign)
      && forall x <- records ::
        x != c ==> r[x] == Rewritten(records, w, x, {EthNeedSign}, EthSign, Set(foreign), Set(foreign))
  {
    hide Touch;
  }

  lemma FinalizedMoves(records: Records, id: TrxId, kind: Kind, c: TrxId, foreign: string, symbol: string)
    requires Families(records) && c in records && records[c].kind == CombineSign && records[c].state == EthNeedSign
    requires id !in records
    requires records[c].relate in records
    ensures var w := records[c].relate;
      && records[w].kind == WithoutSign
      && Finalized(records, id, kind, c, foreign, symbol).Keys == records.Keys + {id}
      && Moves(records, Finalized(records, id, kind, c, foreign, symbol) - {id}, w, EthSign)
      && Finalized(records, id, kind, c, foreign, symbol)[id] == Record(kind, w, [], EthSign, foreign, NO_FEE, symbol)
  {
    hide DisjointBatches, OneCombine, IsEth, BatchOk, MovesAt, Finalized, Rewritten;
    assert ReferenceOk(records, c) && BatchOk(records, records[c].relate);
    var w := records[c].relate;
    CombineApart(records, c);
    FinalizedAt(records, id, kind, c, foreign, symbol);
    var r := Finalized(records, id, kind, c, foreign, symbol) - {id};
    forall x <- records ensures MovesAt(records, x, r[x], w, EthSign) {
      assert BatchOk(records, w) && BatchOk(records, x) && ReferenceOk(records, x) && WithdrawOk(records, x);
      if x == c {
        CombineMoves(records, c, r[c], EthSign);
      } else {
        RewrittenMoves(records, w, x, {EthNeedSign}, EthSign, Set(foreign), Set(foreign));
      }
    }
  }

  lemma CombineMoves(records: Records, c: TrxId, r: Record, st: State)
    requires c in records && records[c].kind == CombineSign && records[c].relate in records
    requires r == records[c].(state := st, foreign := r.foreign)
    ensures MovesAt(records, c, r, records[c].relate, st)
  {}

  lemma CombineApart(records: Records, c: TrxId)
    requires c in records && records[c].kind == CombineSign && ReferenceOk(records, c)
    requires BatchOk(records, records[c].relate)
    ensures c != records[c].relate && c !in records[records[c].relate].origins
  {
    hide IsEth;
  }

  lemma ConfirmedMoves(records: Records, w: TrxId)
    requires Families(records) && w in records && records[w].kind == WithoutSign
    requires records[w].state in {CombineCreate, EthSign}
    ensures Moves(records, Confirmed(records, w), w, Confirm)
  {
    hide DisjointBatches, OneCombine, IsEth, BatchOk, MovesAt;
    var r := Confirmed(records, w);
    forall x <- records ensures MovesAt(records, x, r[x], w, Confirm) {
      assert BatchOk(records, w) && BatchOk(records, x) && ReferenceOk(records, x) && WithdrawOk(records, x);
      RewrittenMoves(records, w, x, {CombineCreate, EthSign}, Confirm, Keep, Keep);
    }
  }

  // ---- foreign ids ----

  /** A combination writes its foreign id into the withdrawals of the batch and its own record, and nowhere else. */
  lemma CombinedForeign(records: Records, id: TrxId, w: TrxId, foreign: string, symbol: string)
    requires Families(records) && w in records && records[w].kind == WithoutSign && id !in records
    ensures var r := Combined(records, id, w, foreign, symbol);
      && id in r && r[id].foreign == foreign
      && forall x <- records ::
           x in r && r[x].foreign == if x in records[w].origins then foreign else records[x].foreign
  {
    hide DisjointBatches, OneCombine, IsEth, Combined, ReferenceOk;
    CombinedAt(records, id, w, foreign, symbol, if IsEth(symbol) then EthNeedSign else CombineCreate);
    assert BatchOk(records, w);
  }

  /** A final signature writes its foreign id into the combination, the withdrawals, and all that was signed so far. */
  lemma FinalizedForeign(records: Records, id: TrxId, kind: Kind, c: TrxId, foreign: string, symbol: string)
    requires Families(records) && c in records && records[c].kind == CombineSign && records[c].state == EthNeedSign
    requires id !in records && records[c].relate in records
    ensures var r, w := Finalized(records, id, kind, c, foreign, symbol), records[c].relate;
      && id in r && r[id].foreign == foreign
      && forall x <- records ::
           x in r && r[x].foreign == if InFamily(records, w, x) && x != w then foreign else records[x].foreign
  {
    hide DisjointBatches, OneCombine, IsEth, BatchOk, Finalized, Rewritten;
    assert ReferenceOk(records, c) && BatchOk(records, records[c].relate);
    CombineApart(records, c);
    FinalizedAt(records, id, kind, c, foreign, symbol);
    var r, w := Finalized(records, id, kind, c, foreign, symbol), records[c].relate;
    forall x <- records
      ensures r[x].foreign == if InFamily(records, w, x) && x != w then foreign else records[x].foreign
    {
      assert BatchOk(records, w) && BatchOk(records, x) && ReferenceOk(records, x) && WithdrawOk(records, x);
      if x != c {
        RewrittenForeign(records, w, x, foreign);
      }
    }
  }

  lemma RewrittenForeign(records: Records, w: TrxId, x: TrxId, foreign: string)
    requires w in records && records[w].kind == WithoutSign && records[w].state == EthNeedSign && x in records
    requires BatchOk(records, w) && BatchOk(records, x) && ReferenceOk(records, x) && WithdrawOk(records, x)
    ensures Rewritten(records, w, x, {EthNeedSign}, EthSign, Set(foreign), Set(foreign)).foreign
      == if InFamily(records, w, x) && x != w then foreign else records[x].foreign
  {
    hide IsEth;
  }

  // ---- a moved family is still a family ----

  lemma MovedBatch(records: Records, r: Records, w: TrxId, st: State, x: TrxId)
    requires Families(records) && w in records && records[w].kind == WithoutSign && Moves(records, r, w, st)
    requires Stage(st) && x in records
    ensures BatchOk(r, x) && WithdrawOk(r, x)
  {
    hide IsEth, OneCombine, ReferenceOk;
    assert BatchOk(records, x) && WithdrawOk(records, x) && MovesAt(records, x, r[x], w, st);
    if records[x].kind == WithoutSign {
      forall o <- records[x].origins ensures o in r && r[o].kind == Withdraw && r[o].state == r[x].state {
        assert MovesAt(records, o, r[o], w, st) && WithdrawOk(records, o);
      }
    }
  }

  lemma MovedReference(records: Records, r: Records, w: TrxId, st: State, x: TrxId)
    requires Families(records) && w in records && records[w].kind == WithoutSign && Moves(records, r, w, st)
    requires x in records
    requires Stage(st) && st != Create
    requires records[x].kind == CombineSign && records[x].relate == w ==>
      st in if IsEth(records[x].symbol) then {EthNeedSign, EthSign, Confirm} else {CombineCreate, Confirm}
    ensures ReferenceOk(r, x)
  {
    hide IsEth, OneCombine, DisjointBatches;
    assert ReferenceOk(records, x) && MovesAt(records, x, r[x], w, st);
    assert BatchOk(records, w);
    if Refers(records[x].kind) {
      var v := records[x].relate;
      assert MovesAt(records, v, r[v], w, st) && BatchOk(records, v);
      if v != w {
        assert !InFamily(records, w, v);
      }
    }
  }

  lemma MovesKeepsFamilies(records: Records, r: Records, w: TrxId, st: State)
    requires Families(records) && w in records && records[w].kind == WithoutSign && Moves(records, r, w, st)
    requires Stage(st) && st != Create
    requires forall c <- records :: records[c].kind == CombineSign && records[c].relate == w ==>
      st in if IsEth(records[c].symbol) then {EthNeedSign, EthSign, Confirm} else {CombineCreate, Confirm}
    ensures Families(r)
  {
    hide IsEth, InFamily, BatchOk, ReferenceOk, WithdrawOk;
    forall x <- r ensures BatchOk(r, x) && ReferenceOk(r, x) && WithdrawOk(r, x) {
      MovedBatch(records, r, w, st, x);
      MovedReference(records, r, w, st, x);
    }
    forall x <- records
      ensures r[x].kind == records[x].kind && r[x].relate == records[x].relate && r[x].origins == records[x].origins
    {
      assert MovesAt(records, x, r[x], w, st);
    }
  }

  // ---- new records ----

  /** A new record is in no family but the one it refers to. */
  lemma AddedBatch(records: Records, id: TrxId, rec: Record, x: TrxId)
    requires Families(records) && Fresh(records, id) && x in records
    ensures BatchOk(records[id := rec], x) && WithdrawOk(records[id := rec], x)
  {
    hide IsEth, OneCombine, ReferenceOk, DisjointBatches;
    assert BatchOk(records, x) && WithdrawOk(records, x);
  }

  lemma AddedReference(records: Records, id: TrxId, rec: Record, x: TrxId)
    requires Families(records) && Fresh(records, id) && x in records
    ensures ReferenceOk(records[id := rec], x)
  {
    hide IsEth, OneCombine, BatchOk, DisjointBatches;
    assert ReferenceOk(records, x);
  }

  lemma AddKeepsFamilies(records: Records, id: TrxId, rec: Record)
    requires Families(records) && Fresh(records, id) && rec.kind != WithoutSign
    requires var r := records[id := rec]; BatchOk(r, id) && ReferenceOk(r, id) && WithdrawOk(r, id)
    requires rec.kind == CombineSign ==> forall c <- records ::
      records[c].kind == CombineSign ==> records[c].relate != rec.relate
    ensures Families(records[id := rec])
  {
    hide IsEth, BatchOk, ReferenceOk, WithdrawOk;
    var r := records[id := rec];
    forall x <- r ensures BatchOk(r, x) && ReferenceOk(r, x) && WithdrawOk(r, x) {
      if x != id {
        AddedBatch(records, id, rec, x);
        AddedReference(records, id, rec, x);
      }
    }
  }

  /** A new batch takes withdrawals that no batch has. */
  lemma BatchedKeepsFamilies(records: Records, id: TrxId, origins: seq<TrxId>, fee: Amount, symbol: string)
    requires Families(records) && Fresh(records, id) && origins != []
    requires forall o <- origins :: o in records && records[o].kind == Withdraw && records[o].state == Uncreate
    ensures Families(Batched(records, id, origins, fee, symbol))
  {
    hide IsEth, BatchOk, ReferenceOk, DisjointBatches;
    var r := Batched(records, id, origins, fee, symbol);
    forall x <- r ensures BatchOk(r, x) && ReferenceOk(r, x) && WithdrawOk(r, x) {
      if x == id {
        BatchedNew(records, id, origins, fee, symbol);
      } else {
        BatchedOld(records, id, origins, fee, symbol, x);
      }
    }
    assert DisjointBatches(r) by { BatchedDisjoint(records, id, origins, fee, symbol); }
    assert OneCombine(r);
  }

  lemma BatchedNew(records: Records, id: TrxId, origins: seq<TrxId>, fee: Amount, symbol: string)
    requires Fresh(records, id) && origins != [] && forall o <- origins :: o in records && records[o].kind == Withdraw
    ensures var r := Batched(records, id, origins, fee, symbol);
      BatchOk(r, id) && ReferenceOk(r, id) && WithdrawOk(r, id)
  {
    hide IsEth;
  }

  lemma BatchedOld(records: Records, id: TrxId, origins: seq<TrxId>, fee: Amount, symbol: string, x: TrxId)
    requires Families(records) && Fresh(records, id) && origins != [] && x in records
    requires forall o <- origins :: o in records && records[o].kind == Withdraw && records[o].state == Uncreate
    ensures var r := Batched(records, id, origins, fee, symbol); BatchOk(r, x) && ReferenceOk(r, x) && WithdrawOk(r, x)
  {
    hide IsEth, OneCombine, DisjointBatches;
    assert BatchOk(records, x) && ReferenceOk(records, x) && WithdrawOk(records, x);
  }

  lemma BatchedDisjoint(records: Records, id: TrxId, origins: seq<TrxId>, fee: Amount, symbol: string)
    requires Families(records) && Fresh(records, id) && origins != []
    requires forall o <- origins :: o in records && records[o].kind == Withdraw && records[o].state == Uncreate
    ensures DisjointBatches(Batched(records, id, origins, fee, symbol))
  {
    hide IsEth, OneCombine, ReferenceOk, WithdrawOk;
    var r := Batched(records, id, origins, fee, symbol);
    forall v <- records, o <- origins | records[v].kind == WithoutSign ensures o !in records[v].origins {
      assert BatchOk(records, v);
    }
  }

  // ---- the invariant of the protocol ----

  /** A confirmed combination has used up its foreign id. */
  predicate Used(records: Records, acquired: map<string, Acquired>) {
    forall c <- records :: records[c].kind == CombineSign && records[c].state == Confirm ==>
      !Free(acquired, records[c].foreign)
  }

  predicate HasCombine(records: Records, w: TrxId) {
    exists c <- records :: records[c].kind == CombineSign && records[c].relate == w
  }

  /** A batch that is past its creation has been combined. */
  predicate Advanced(records: Records) {
    forall w <- records :: records[w].kind == WithoutSign && records[w].state != Create ==> HasCombine(records, w)
  }

  predicate Invariant(s: Bridge) {
    Families(s.records) && Used(s.records, s.acquired) && Advanced(s.records)
  }

  lemma StillCombined(records: Records, r: Records, w: TrxId)
    requires HasCombine(records, w)
    requires forall x <- records :: x in r && r[x].kind == records[x].kind && r[x].relate == records[x].relate
    ensures HasCombine(r, w)
  {
    var c :| c in records && records[c].kind == CombineSign && records[c].relate == w;
    assert c in r && r[c].kind == CombineSign && r[c].relate == w;
  }

  /** A step that moves one combined family and adds a record that is no batch. */
  lemma MovesAdvanced(records: Records, base: Records, w: TrxId, st: State, r: Records)
    requires Families(records) && Advanced(records) && w in records && records[w].kind == WithoutSign
    requires Moves(records, base, w, st)
    requires forall x <- base :: x in r && r[x] == base[x]
    requires forall x <- r :: x in base || r[x].kind != WithoutSign
    requires HasCombine(r, w)
    ensures Advanced(r)
  {
    hide IsEth, DisjointBatches, OneCombine, ReferenceOk, HasCombine;
    assert BatchOk(records, w);
    forall v <- r | r[v].kind == WithoutSign && r[v].state != Create ensures HasCombine(r, v) {
      assert MovesAt(records, v, base[v], w, st);
      if v != w {
        assert !InFamily(records, w, v);
        MovesShape(records, base, w, st);
        StillCombined(records, r, v);
      }
    }
  }

  lemma MovesShape(records: Records, r: Records, w: TrxId, st: State)
    requires w in records && Moves(records, r, w, st)
    ensures r[w].state == st
    ensures forall x <- records :: r[x].kind == records[x].kind && r[x].relate == records[x].relate
  {
    assert MovesAt(records, w, r[w], w, st) && InFamily(records, w, w);
    forall x <- records ensures r[x].kind == records[x].kind && r[x].relate == records[x].relate {
      assert MovesAt(records, x, r[x], w, st);
    }
  }

  /** A record that refers to a batch and follows its stage joins the family. */
  lemma AddFollower(records: Records, id: TrxId, rec: Record)
    requires Families(records) && Fresh(records, id) && Refers(rec.kind)
    requires rec.relate in records && records[rec.relate].kind == WithoutSign
    requires rec.state == Follows(rec.kind, records[rec.relate].state)
    requires rec.kind != WithSign ==> rec.state != Create
    requires rec.kind == CombineSign ==>
      && (rec.state in if IsEth(rec.symbol) then {EthNeedSign, EthSign, Confirm} else {CombineCreate, Confirm})
      && forall c <- records :: records[c].kind == CombineSign ==> records[c].relate != rec.relate
    ensures Families(records[id := rec])
  {
    hide IsEth, Families, DisjointBatches, OneCombine;
    AddKeepsFamilies(records, id, rec);
  }

  lemma NoCombineYet(records: Records, w: TrxId)
    requires Families(records) && w in records && records[w].state == Create
    ensures forall c <- records :: records[c].kind == CombineSign ==> records[c].relate != w
  {
    hide IsEth, DisjointBatches, OneCombine, BatchOk;
    forall c <- records | records[c].kind == CombineSign ensures records[c].relate != w {
      assert ReferenceOk(records, c);
    }
  }

  /** Moving a family short of confirmation uses up no foreign id. */
  lemma MovesUsed(records: Records, r: Records, w: TrxId, st: State, acquired: map<string, Acquired>)
    requires w in records && Moves(records, r, w, st) && st != Confirm && Used(records, acquired)
    ensures Used(r, acquired)
  {
    hide IsEth, InFamily;
    forall c <- r | r[c].kind == CombineSign && r[c].state == Confirm ensures !Free(acquired, r[c].foreign) {
      assert MovesAt(records, c, r[c], w, st);
    }
  }

  lemma CombinedKeeps(records: Records, acquired: map<string, Acquired>, id: TrxId, w: TrxId, foreign: string,
                      symbol: string)
    requires Families(records) && Used(records, acquired) && Fresh(records, id)
    requires w in records && records[w].kind == WithoutSign && records[w].state == Create
    requires Advanced(records)
    ensures var r := Combined(records, id, w, foreign, symbol); Families(r) && Used(r, acquired) && Advanced(r)
  {
    hide Families, IsEth, Moves, Combined, Advanced;
    var st := if IsEth(symbol) then EthNeedSign else CombineCreate;
    var r: Records := Combined(records, id, w, foreign, symbol);
    var base: Records := r - {id};
    CombinedMoves(records, id, w, foreign, symbol);
    assert r == base[id := r[id]];
    NoCombineYet(records, w);
    MovesKeepsFamilies(records, base, w, st);
    MovesKeys(records, base, w, st);
    MovesShape(records, base, w, st);
    AddFollower(base, id, r[id]);
    MovesUsed(records, base, w, st, acquired);
    assert HasCombine(r, w);
    MovesAdvanced(records, base, w, st, r);
  }

  lemma MovesKeys(records: Records, r: Records, w: TrxId, st: State)
    requires w in records && Moves(records, r, w, st)
    ensures r.Keys == records.Keys
  {}

  lemma FinalizedKeeps(records: Records, acquired: map<string, Acquired>, id: TrxId, kind: Kind, c: TrxId,
                       foreign: string, symbol: string)
    requires Families(records) && Used(records, acquired) && Fresh(records, id) && kind in {SignFinal, ChangeSigner}
    requires c in records && records[c].kind == CombineSign && records[c].state == EthNeedSign
    requires records[c].relate in records
    requires Advanced(records)
    ensures var r := Finalized(records, id, kind, c, foreign, symbol); Families(r) && Used(r, acquired) && Advanced(r)
  {
    hide Families, IsEth, Moves, Finalized, Advanced;
    var w := records[c].relate;
    var r: Records := Finalized(records, id, kind, c, foreign, symbol);
    var base: Records := r - {id};
    FinalizedMoves(records, id, kind, c, foreign, symbol);
    assert r == base[id := r[id]];
    OnlyCombine(records, c);
    MovesKeepsFamilies(records, base, w, EthSign);
    MovesKeys(records, base, w, EthSign);
    MovesShape(records, base, w, EthSign);
    AddFollower(base, id, r[id]);
    MovesUsed(records, base, w, EthSign, acquired);
    assert base[c].kind == CombineSign && base[c].relate == w;
    assert HasCombine(r, w);
    MovesAdvanced(records, base, w, EthSign, r);
  }

  lemma OnlyCombine(records: Records, c: TrxId)
    requires Families(records) && c in records && records[c].kind == CombineSign
    ensures ReferenceOk(records, c)
    ensures forall d <- records :: records[d].kind == CombineSign && records[d].relate == records[c].relate ==> d == c
  {}

  /**
   * A result finds its batch in the state of the combination, never confirmed. It can find it awaiting the ETH
   * signature,
   * but only when the combination is of the ETH family and the symbol of the result is not.
   */
  lemma ResultFindsOpen(s: Bridge, c: TrxId, foreign: string, symbol: string)
    requires Invariant(s) && Allowed(s, Result(c, foreign, symbol))
    ensures var w := s.records[c].relate;
      && s.records[w].kind == WithoutSign && s.records[w].state == s.records[c].state
      && s.records[c].state in {CombineCreate, EthNeedSign, EthSign}
      && (s.records[c].state == EthNeedSign ==> IsEth(s.records[c].symbol) && !IsEth(symbol))
  {
    hide IsEth, Families, ResultKey;
    OnlyCombine(s.records, c);
  }

  lemma ConfirmedForeign(records: Records, w: TrxId, x: TrxId)
    requires w in records && x in records
    ensures Confirmed(records, w)[x].foreign == records[x].foreign
  {}

  lemma ConfirmedKeeps(records: Records, acquired: map<string, Acquired>, c: TrxId, key: string)
    requires Families(records) && Used(records, acquired) && c in records && records[c].kind == CombineSign
    requires records[c].foreign == key
    requires records[c].relate in records && records[records[c].relate].kind == WithoutSign
    requires records[records[c].relate].state in {CombineCreate, EthSign} && Advanced(records)
    ensures var r := Confirmed(records, records[c].relate);
      Families(r) && Used(r, acquired[key := AcquiredConfirmed]) && Advanced(r)
  {
    hide Families, IsEth, InFamily, Confirmed, Advanced;
    var w := records[c].relate;
    ConfirmedMoves(records, w);
    var r := Confirmed(records, w);
    OnlyCombine(records, c);
    MovesKeepsFamilies(records, r, w, Confirm);
    MovesShape(records, r, w, Confirm);
    assert r[c].kind == CombineSign && r[c].relate == w;
    MovesAdvanced(records, r, w, Confirm, r);
    forall d <- r | r[d].kind == CombineSign && r[d].state == Confirm
      ensures !Free(acquired[key := AcquiredConfirmed], r[d].foreign)
    {
      assert MovesAt(records, d, r[d], w, Confirm);
      ConfirmedForeign(records, w, d);
      if d != c {
        CombineOutside(records, w, c, d);
      }
    }
  }

  /** Another combination is not in this family. */
  lemma CombineOutside(records: Records, w: TrxId, c: TrxId, d: TrxId)
    requires Families(records) && c in records && d in records && c != d
    requires records[c].kind == records[d].kind == CombineSign
    requires w == records[c].relate && w in records && records[w].kind == WithoutSign
    ensures !InFamily(records, w, d)
  {
    assert BatchOk(records, w);
  }
}
