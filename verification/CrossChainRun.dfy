/** What holds over whole runs of the cross-chain protocol. */
module CrossChainRun {
  import opened MapSum
  import opened ForeignIds
  import opened CrossChainSpec
  import opened CrossChainLaws

  // ---- every step keeps the families ----

  lemma AcquireKeepsUsed(records: Records, acquired: map<string, Acquired>, key: string, a: Acquired)
    requires Used(records, acquired) && a != AcquiredUncreate
    ensures Used(records, acquired[key := a])
  {
    hide IsEth;
  }

  lemma BatchKeeps(s: Bridge, step: Step)
    requires Invariant(s) && step.Batch? && Allowed(s, step)
    ensures Invariant(Apply(s, step))
  {
    hide IsEth, Families, HasCombine;
    BatchedKeepsFamilies(s.records, step.id, step.origins, step.fee, step.symbol);
    var r := Batched(s.records, step.id, step.origins, step.fee, step.symbol);
    forall w <- r | r[w].kind == WithoutSign && r[w].state != Create ensures HasCombine(r, w) {
      StillCombined(s.records, r, w);
    }
  }

  lemma AddedAdvanced(records: Records, id: TrxId, rec: Record)
    requires Advanced(records) && id !in records && rec.kind != WithoutSign
    ensures Advanced(records[id := rec])
  {
    hide HasCombine;
    var r := records[id := rec];
    forall w <- r | r[w].kind == WithoutSign && r[w].state != Create ensures HasCombine(r, w) {
      StillCombined(records, r, w);
    }
  }

  /** Signatures are only taken by a batch that is not yet combined. */
  lemma SignedBatchIsNew(s: Bridge, id: TrxId, w: TrxId, symbol: string)
    requires Invariant(s) && Allowed(s, Signature(id, w, symbol))
    ensures s.records[w].state == Create
  {
    hide IsEth, DisjointBatches, OneCombine, BatchOk;
    forall c <- s.records | s.records[c].kind == CombineSign ensures s.records[c].relate != w {
      assert ReferenceOk(s.records, c);
    }
  }

  lemma SignatureKeeps(s: Bridge, step: Step)
    requires Invariant(s) && step.Signature? && Allowed(s, step)
    ensures Invariant(Apply(s, step))
  {
    hide IsEth, Families, Advanced;
    SignedBatchIsNew(s, step.id, step.batch, step.symbol);
    var rec := Record(WithSign, step.batch, [], Sign, "", NO_FEE, s.records[step.batch].symbol);
    AddFollower(s.records, step.id, rec);
    AddedAdvanced(s.records, step.id, rec);
  }

  lemma WithdrawKeeps(s: Bridge, step: Step)
    requires Invariant(s) && step.WithdrawRequest? && Allowed(s, step)
    ensures Invariant(Apply(s, step))
  {
    hide IsEth, Families, Advanced, Get;
    var rec := Record(Withdraw, 0, [], Uncreate, "", NO_FEE, step.symbol);
    AddKeepsFamilies(s.records, step.id, rec);
    AddedAdvanced(s.records, step.id, rec);
  }

  lemma CombineKeeps(s: Bridge, step: Step)
    requires Invariant(s) && step.Combine? && Allowed(s, step)
    ensures Invariant(Apply(s, step))
    ensures var w := s.records[step.signature].relate; s.records[w].kind == WithoutSign && s.records[w].state == Create
  {
    hide IsEth, Advanced, Combined, DisjointBatches, OneCombine;
    var w := s.records[step.signature].relate;
    assert ReferenceOk(s.records, step.signature) && BatchOk(s.records, w);
    assert s.records[w].origins[0] in s.records[w].origins;
    CombinedKeeps(s.records, s.acquired, step.id, w, step.foreign, step.symbol);
  }

  /** Some confirmed combination carries this foreign id. */
  predicate Carried(records: Records, key: string) {
    exists c <- records :: records[c].kind == CombineSign && records[c].state == Confirm && records[c].foreign == key
  }

  /**
   * A result looks at the state of the combination only if its own symbol is of the ETH family, and a reopening does
   * not
   * look at combinations. What they would have to look at: the combination does not await its ETH signature, and no
   * confirmed combination carries the reopened id.
   */
  predicate Steady(s: Bridge, step: Step) {
    match step
    case Result(c, _, _) => c in s.records ==> s.records[c].state != EthNeedSign
    case Reopen(final, signed) => final in s.records ==> !Carried(s.records, ReopenKey(s.records, final, signed))
    case _ => true
  }

  /** A result whose symbol is of the ETH family whenever the combination's is. */
  lemma AgreeingResultIsSteady(s: Bridge, c: TrxId, foreign: string, symbol: string)
    requires Invariant(s) && Allowed(s, Result(c, foreign, symbol)) && (IsEth(s.records[c].symbol) ==> IsEth(symbol))
    ensures Steady(s, Result(c, foreign, symbol))
  {
    hide IsEth, Invariant, Allowed;
    ResultFindsOpen(s, c, foreign, symbol);
  }

  lemma ConfirmedRelated(records: Records, c: TrxId)
    requires c in records && records[c].relate in records && c != records[c].relate
    requires c !in records[records[c].relate].origins
    requires records[c].state !in {CombineCreate, EthSign}
    ensures var w, r := records[c].relate, Confirmed(records, records[c].relate);
      r.Keys == records.Keys && r[c] == records[c] && r[w].state == Confirm
  {}

  /** The batch is confirmed, its combination still awaits the ETH signature. */
  lemma TornResult(s: Bridge, c: TrxId, foreign: string, symbol: string)
    requires Invariant(s) && Allowed(s, Result(c, foreign, symbol)) && s.records[c].state == EthNeedSign
    ensures !Families(Apply(s, Result(c, foreign, symbol)).records)
  {
    hide IsEth, DisjointBatches, OneCombine, BatchOk, Advanced, Used, Confirmed;
    var w := s.records[c].relate;
    assert ReferenceOk(s.records, c) && BatchOk(s.records, w);
    CombineApart(s.records, c);
    ConfirmedRelated(s.records, c);
    assert !ReferenceOk(Confirmed(s.records, w), c);
  }

  lemma ReopenedUsed(records: Records, acquired: map<string, Acquired>, key: string)
    requires Used(records, acquired)
    ensures Used(records, acquired[key := AcquiredUncreate]) <==> !Carried(records, key)
  {
    if Carried(records, key) {
      var c :| c in records && records[c].kind == CombineSign && records[c].state == Confirm
               && records[c].foreign == key;
      assert Free(acquired[key := AcquiredUncreate], records[c].foreign);
    }
  }

  /** Exactly the steady steps keep the invariant. */
  lemma StepKeepsIff(s: Bridge, step: Step)
    requires Invariant(s) && Allowed(s, step)
    ensures Invariant(Apply(s, step)) <==> Steady(s, step)
    ensures step.Result? ==> (Families(Apply(s, step).records) <==> Steady(s, step))
  {
    hide Families, Advanced, Used, Confirmed, Free, IsEth, ResultKey, Carried, Get;
    if Steady(s, step) {
      StepKeeps(s, step);
    } else if step.Result? {
      TornResult(s, step.combine, step.foreign, step.symbol);
    } else {
      ReopenedUsed(s.records, s.acquired, ReopenKey(s.records, step.final, step.signed));
    }
  }

  lemma StepKeeps(s: Bridge, step: Step)
    requires Invariant(s) && Allowed(s, step) && Steady(s, step)
    ensures Invariant(Apply(s, step))
  {
    hide Families, Advanced, Used, Combined, Finalized, Confirmed, Batched, Free, Fresh, Get, IsEth, Carried;
    match step
    case Deposit(_, _, foreign) => AcquireKeepsUsed(s.records, s.acquired, foreign, AcquiredCreate);
    case WithdrawRequest(_, _, _, _) => WithdrawKeeps(s, step);
    case Batch(_, _, _, _, _) => BatchKeeps(s, step);
    case Signature(_, _, _) => SignatureKeeps(s, step);
    case Combine(_, _, _, _) => CombineKeeps(s, step);
    case Finalize(id, kind, c, foreign, symbol) =>
      FinalizedKeeps(s.records, s.acquired, id, kind, c, AfterBar(foreign), symbol);
    case Result(c, foreign, symbol) =>
      ResultFindsOpen(s, c, foreign, symbol);
      ConfirmedKeeps(s.records, s.acquired, c, ResultKey(symbol, foreign));
    case ColdHotResult(_, foreign, symbol) =>
      AcquireKeepsUsed(s.records, s.acquired, ResultKey(symbol, foreign), AcquiredConfirmed);
    case Reopen(final, signed) => ReopenedUsed(s.records, s.acquired, ReopenKey(s.records, final, signed));
    case OpenBlock =>
    case CloseBlock =>
  }

  // ---- what backs a foreign asset ----

  ghost function BalanceIn(a: AssetId): (Holder, int) -> int {
    (k: Holder, v: int) => if k.asset == a then v else 0
  }

  /** The fee of a batch that is not confirmed. */
  ghost function FeeIn(a: AssetId): (TrxId, Record) -> int {
    (k: TrxId, r: Record) => if r.kind == WithoutSign && r.state != Confirm && r.fee.asset == a then r.fee.n else 0
  }

  /** Balances, fee pool, fees collected in this block, fees of unconfirmed batches. */
  ghost function Backing(s: Bridge, a: AssetId): int {
    Sum(s.balances, BalanceIn(a)) + Get(s.pool, a) + (if s.inBlock then Get(s.collected, a) else 0)
    + Sum(s.records, FeeIn(a))
  }

  /** How far the supply is from what backs it. */
  ghost function Drift(s: Bridge, a: AssetId): int {
    Get(s.supply, a) - Backing(s, a)
  }

  /** The supply of every foreign asset is what backs it. */
  ghost predicate Backed(s: Bridge) {
    forall a :: a != CORE ==> Drift(s, a) == 0
  }

  lemma MovesFees(records: Records, r: Records, w: TrxId, st: State, a: AssetId)
    requires Families(records) && w in records && records[w].kind == WithoutSign && records[w].state != Confirm
    requires Moves(records, r, w, st)
    ensures Sum(r, FeeIn(a))
      == Sum(records, FeeIn(a)) - if st == Confirm && records[w].fee.asset == a then records[w].fee.n else 0
  {
    hide Sum, IsEth, DisjointBatches, OneCombine, ReferenceOk;
    assert BatchOk(records, w);
    forall x <- records ensures x != w ==> FeeIn(a)(x, r[x]) == FeeIn(a)(x, records[x]) {
      assert MovesAt(records, x, r[x], w, st);
    }
    assert MovesAt(records, w, r[w], w, st);
    SumChanges(records, r, FeeIn(a), w);
  }

  lemma AddedFees(records: Records, id: TrxId, rec: Record, a: AssetId)
    requires id !in records
    ensures Sum(records[id := rec], FeeIn(a)) == Sum(records, FeeIn(a)) + FeeIn(a)(id, rec)
  {
    SumInsert(records, FeeIn(a), id, rec);
  }

  lemma BatchedFees(records: Records, id: TrxId, origins: seq<TrxId>, fee: Amount, symbol: string, a: AssetId)
    requires Fresh(records, id) && origins != [] && forall o <- origins :: o in records && records[o].kind == Withdraw
    ensures Sum(Batched(records, id, origins, fee, symbol), FeeIn(a))
      == Sum(records, FeeIn(a)) + if fee.asset == a then fee.n else 0
  {
    hide Sum;
    var moved := MoveAll(records, origins, Create, Keep);
    SumSame(records, moved, FeeIn(a));
    AddedFees(moved, id, Record(WithoutSign, origins[0], origins, Create, "", fee, symbol), a);
  }

  lemma RecordFees(s: Bridge, step: Step, a: AssetId)
    requires Invariant(s) && Allowed(s, step) && (step.Combine? || step.Finalize?)
    ensures Sum(Apply(s, step).records, FeeIn(a)) == Sum(s.records, FeeIn(a))
  {
    hide Sum, Families, IsEth, Moves, Combined, Finalized, Advanced;
    var r: Records := Apply(s, step).records;
    var base: Records := r - {step.id};
    if step.Combine? {
      CombineKeeps(s, step);
      CombinedMoves(s.records, step.id, s.records[step.signature].relate, step.foreign, step.symbol);
      MovesFees(s.records, base, s.records[step.signature].relate,
                if IsEth(step.symbol) then EthNeedSign else CombineCreate, a);
    } else {
      OnlyCombine(s.records, step.combine);
      FinalizedMoves(s.records, step.id, step.kind, step.combine, AfterBar(step.foreign), step.symbol);
      MovesFees(s.records, base, s.records[step.combine].relate, EthSign, a);
    }
    assert r == base[step.id := r[step.id]];
    AddedFees(base, step.id, r[step.id], a);
  }

  lemma ResultFees(s: Bridge, c: TrxId, foreign: string, symbol: string, a: AssetId)
    requires Invariant(s) && Allowed(s, Result(c, foreign, symbol))
    ensures var fee := s.records[s.records[c].relate].fee;
      Sum(Apply(s, Result(c, foreign, symbol)).records, FeeIn(a))
      == Sum(s.records, FeeIn(a)) - if fee.asset == a then fee.n else 0
  {
    hide Sum, Families, IsEth, Confirmed, Advanced, ResultKey;
    ResultFindsOpen(s, c, foreign, symbol);
    BatchesApart(s.records, s.records[c].relate);
    ConfirmedFees(s.records, s.records[c].relate, a);
  }

  /** No rewriting of w and what belongs to it reaches another batch. */
  predicate Apart(records: Records, w: TrxId)
    requires w in records
  {
    records[w].kind == WithoutSign && records[w].relate != w && w !in records[w].origins
    && forall x <- records ::
      records[x].kind == WithoutSign && x != w ==> x !in records[w].origins && records[x].relate != w
  }

  lemma BatchesApart(records: Records, w: TrxId)
    requires Families(records) && w in records && records[w].kind == WithoutSign
    ensures Apart(records, w)
  {
    hide IsEth, DisjointBatches, OneCombine, ReferenceOk;
    assert BatchOk(records, w);
    forall x <- records | records[x].kind == WithoutSign && x != w
      ensures x !in records[w].origins && records[x].relate != w
    {
      assert BatchOk(records, x);
    }
  }

  /** Confirming a batch ends its fee, whatever the rest of its family does. */
  lemma ConfirmedFees(records: Records, w: TrxId, a: AssetId)
    requires w in records && Apart(records, w) && records[w].state != Confirm
    ensures var fee := records[w].fee;
      Sum(Confirmed(records, w), FeeIn(a)) == Sum(records, FeeIn(a)) - if fee.asset == a then fee.n else 0
  {
    hide Sum;
    SumChanges(records, Confirmed(records, w), FeeIn(a), w);
  }

  lemma MoneyDrift(s: Bridge, step: Step, a: AssetId)
    requires Allowed(s, step) && a != CORE && (step.Deposit? || step.WithdrawRequest?)
    ensures Drift(Apply(s, step), a) == Drift(s, a)
  {
    hide Sum;
    var n := if step.Deposit? then step.x.n else -step.x.n;
    SumAdjust(s.balances, BalanceIn(a), Holder(step.owner, step.x.asset), n, step.x.asset == a);
    if step.WithdrawRequest? {
      AddedFees(s.records, step.id, Record(Withdraw, 0, [], Uncreate, "", NO_FEE, step.symbol), a);
    }
  }

  /** Only a batch whose fee is booked in another asset moves the supply away from its backing. */
  lemma StepDrift(s: Bridge, step: Step, a: AssetId)
    requires Invariant(s) && Allowed(s, step) && a != CORE
    ensures Drift(Apply(s, step), a) == Drift(s, a)
      + if step.Batch? then (if step.asset == a then step.fee.n else 0)
                             - (if step.fee.asset == a then step.fee.n else 0)
        else 0
  {
    hide Sum, Invariant, Combined, Finalized, Confirmed, Batched, IsEth, ResultKey;
    match step
    case Deposit(_, _, _) => MoneyDrift(s, step, a);
    case WithdrawRequest(_, _, _, _) => MoneyDrift(s, step, a);
    case Batch(id, origins, _, fee, symbol) => BatchedFees(s.records, id, origins, fee, symbol, a);
    case Signature(id, w, _) =>
      AddedFees(s.records, id, Record(WithSign, w, [], Sign, "", NO_FEE, s.records[w].symbol), a);
    case Combine(_, _, _, _) => RecordFees(s, step, a);
    case Finalize(_, _, _, _, _) => RecordFees(s, step, a);
    case Result(c, foreign, symbol) => ResultFees(s, c, foreign, symbol, a);
    case ColdHotResult(_, _, _) =>
    case Reopen(_, _) =>
    case OpenBlock =>
    case CloseBlock =>
  }

  /**
   * The evaluator does not compare the fee's asset with the batch's: the books stay balanced exactly when they
   * agree.
   */
  lemma BatchBackedIff(s: Bridge, step: Step)
    requires Invariant(s) && Backed(s) && step.Batch? && Allowed(s, step)
    ensures Backed(Apply(s, step)) <==> step.fee.n == 0 || step.fee.asset == step.asset
  {
    hide Invariant, Drift, Apply;
    forall a | a != CORE ensures Drift(Apply(s, step), a) ==
      (if step.asset == a then step.fee.n else 0) - (if step.fee.asset == a then step.fee.n else 0)
    {
      StepDrift(s, step, a);
    }
    if step.fee.n != 0 && step.fee.asset != step.asset {
      var a := if step.asset != CORE then step.asset else step.fee.asset;
      assert a != CORE && Drift(Apply(s, step), a) != 0;
    }
  }

  // ---- runs ----

  /** A step that is not allowed is refused and changes nothing. */
  function Next(s: Bridge, step: Step): Bridge {
    if Allowed(s, step) then Apply(s, step) else s
  }

  function Run(s: Bridge, steps: seq<Step>): Bridge
    decreases |steps|
  {
    if steps == [] then s else Run(Next(s, steps[0]), steps[1..])
  }

  /** A batch books its fee in its own asset. */
  predicate Proper(step: Step) {
    step.Batch? ==> step.fee.n == 0 || step.fee.asset == step.asset
  }

  /** No result confirms a combination that awaits its ETH signature; no id of a confirmed combination is reopened. */
  predicate SteadyRun(s: Bridge, steps: seq<Step>)
    decreases |steps|
  {
    steps == [] || ((Allowed(s, steps[0]) ==> Steady(s, steps[0])) && SteadyRun(Next(s, steps[0]), steps[1..]))
  }

  /** The supply of every foreign asset stays equal to what backs it, over every steady run. */
  lemma {:induction false} RunBacked(s: Bridge, steps: seq<Step>)
    requires Invariant(s) && Backed(s) && SteadyRun(s, steps) && forall i :: 0 <= i < |steps| ==> Proper(steps[i])
    ensures Invariant(Run(s, steps)) && Backed(Run(s, steps))
    decreases |steps|
  {
    hide Invariant, Drift, Allowed, Apply, Steady;
    if steps != [] {
      assert Proper(steps[0]);
      if Allowed(s, steps[0]) {
        StepKeeps(s, steps[0]);
        forall a | a != CORE ensures Drift(Apply(s, steps[0]), a) == 0 {
          StepDrift(s, steps[0], a);
        }
      }
      RunBacked(Next(s, steps[0]), steps[1..]);
    }
  }

  // ---- amounts over runs ----

  /** The sum of f over the accepted steps of a run, each taken in the state it finds. */
  ghost function Over(s: Bridge, steps: seq<Step>, f: (Bridge, Step) -> int): int
    decreases |steps|
  {
    if steps == [] then 0
    else (if Allowed(s, steps[0]) then f(s, steps[0]) else 0) + Over(Next(s, steps[0]), steps[1..], f)
  }

  /** Deposits and batch fees add to the supply; withdrawals and cold/hot results take from it. */
  ghost function Supplied(a: AssetId): (Bridge, Step) -> int {
    (s: Bridge, step: Step) =>
      match step
      case Deposit(_, x, _) => if x.asset == a then x.n else 0
      case WithdrawRequest(_, _, x, _) => if x.asset == a then -x.n else 0
      case Batch(_, _, asset, fee, _) => if asset == a then fee.n else 0
      case ColdHotResult(x, _, _) => if x.asset == a then -x.n else 0
      case _ => 0
  }

  /** An account gains its own deposits and loses its own withdrawals. */
  ghost function Gained(h: Holder): (Bridge, Step) -> int {
    (s: Bridge, step: Step) =>
      match step
      case Deposit(owner, x, _) => if h == Holder(owner, x.asset) then x.n else 0
      case WithdrawRequest(_, owner, x, _) => if h == Holder(owner, x.asset) then -x.n else 0
      case _ => 0
  }

  /** A result earns the fee of the batch it finds; a cold/hot result is paid out of the fees. */
  ghost function Earned(a: AssetId): (Bridge, Step) -> int {
    (s: Bridge, step: Step) =>
      match step
      case Result(c, _, _) =>
        if c in s.records && s.records[c].relate in s.records && s.records[s.records[c].relate].fee.asset == a
        then s.records[s.records[c].relate].fee.n else 0
      case ColdHotResult(x, _, _) => if x.asset == a then -x.n else 0
      case _ => 0
  }

  /** The fees of an asset: its pool, and inside a block what has been collected for it. */
  ghost function Fees(s: Bridge, a: AssetId): int {
    Get(s.pool, a) + if s.inBlock then Get(s.collected, a) else 0
  }

  lemma StepAmounts(s: Bridge, step: Step, a: AssetId, h: Holder)
    requires Allowed(s, step)
    ensures Get(Apply(s, step).supply, a) == Get(s.supply, a) + Supplied(a)(s, step)
    ensures Get(Apply(s, step).balances, h) == Get(s.balances, h) + Gained(h)(s, step)
    ensures a != CORE ==> Fees(Apply(s, step), a) == Fees(s, a) + Earned(a)(s, step)
    ensures Get(Apply(s, step).pool, CORE) == Get(s.pool, CORE)
  {
    hide Combined, Finalized, Confirmed, Batched, IsEth, ResultKey, Fresh;
  }

  /** The supply of every asset over every run: what it was, and what the accepted steps brought and took. */
  lemma {:induction false} RunSupply(s: Bridge, steps: seq<Step>, a: AssetId)
    ensures Get(Run(s, steps).supply, a) == Get(s.supply, a) + Over(s, steps, Supplied(a))
    decreases |steps|
  {
    hide Allowed, Apply, Get, Supplied;
    if steps != [] {
      if Allowed(s, steps[0]) {
        StepAmounts(s, steps[0], a, Holder(0, a));
      }
      RunSupply(Next(s, steps[0]), steps[1..], a);
    }
  }

  /** Every balance over every run: what it was, plus the holder's own deposits, less their own withdrawals. */
  lemma {:induction false} RunBalance(s: Bridge, steps: seq<Step>, h: Holder)
    ensures Get(Run(s, steps).balances, h) == Get(s.balances, h) + Over(s, steps, Gained(h))
    decreases |steps|
  {
    hide Allowed, Apply, Get, Gained;
    if steps != [] {
      if Allowed(s, steps[0]) {
        StepAmounts(s, steps[0], h.asset, h);
      }
      RunBalance(Next(s, steps[0]), steps[1..], h);
    }
  }

  /** The fees of every foreign asset over every run: the fees of confirmed batches, less what cold/hot results cost. */
  lemma {:induction false} RunFees(s: Bridge, steps: seq<Step>, a: AssetId)
    requires a != CORE
    ensures Fees(Run(s, steps), a) == Fees(s, a) + Over(s, steps, Earned(a))
    decreases |steps|
  {
    hide Allowed, Apply, Fees, Earned;
    if steps != [] {
      if Allowed(s, steps[0]) {
        StepAmounts(s, steps[0], a, Holder(0, a));
      }
      RunFees(Next(s, steps[0]), steps[1..], a);
    }
  }

  /** r' is r up to its state and its foreign id. */
  predicate SameRecord(r: Record, r': Record) {
    r' == r.(state := r'.state, foreign := r'.foreign)
  }

  /** What a record is for never changes. */
  lemma RecordStays(s: Bridge, step: Step, x: TrxId)
    requires Allowed(s, step) && x in s.records
    ensures x in Apply(s, step).records && SameRecord(s.records[x], Apply(s, step).records[x])
  {
    hide IsEth, ResultKey, Free, Get, Adjust, MayAdjust, Combined, Finalized, Confirmed, Batched, SameRecord;
    SameRecordItself(s.records[x]);
    match step
    case Batch(id, origins, _, fee, symbol) => BatchedSame(s.records, id, origins, fee, symbol, x);
    case Combine(id, signature, foreign, symbol) =>
      CombinedSame(s.records, id, s.records[signature].relate, foreign, symbol, x);
    case Finalize(id, kind, c, foreign, symbol) =>
      FinalizedSame(s.records, id, kind, c, AfterBar(foreign), symbol, x);
    case Result(c, _, _) => ConfirmedSame(s.records, s.records[c].relate, x);
    case _ =>
  }

  lemma SameRecordItself(r: Record)
    ensures SameRecord(r, r)
  {}

  lemma BatchedSame(records: Records, id: TrxId, origins: seq<TrxId>, fee: Amount, symbol: string, x: TrxId)
    requires origins != [] && id !in records && x in records
    ensures var r := Batched(records, id, origins, fee, symbol); x in r && SameRecord(records[x], r[x])
  {}

  lemma CombinedSame(records: Records, id: TrxId, w: TrxId, foreign: string, symbol: string, x: TrxId)
    requires w in records && id !in records && x in records
    ensures var r := Combined(records, id, w, foreign, symbol); x in r && SameRecord(records[x], r[x])
  {
    hide IsEth;
  }

  lemma FinalizedSame(records: Records, id: TrxId, kind: Kind, c: TrxId, f: string, symbol: string, x: TrxId)
    requires c in records && records[c].relate in records && id !in records && x in records
    ensures var r := Finalized(records, id, kind, c, f, symbol); x in r && SameRecord(records[x], r[x])
  {}

  lemma ConfirmedSame(records: Records, w: TrxId, x: TrxId)
    requires w in records && x in records
    ensures var r := Confirmed(records, w); x in r && SameRecord(records[x], r[x])
  {}

  /** A batch is recorded with the withdrawals it takes and the fee its result will earn. */
  lemma BatchRecorded(s: Bridge, step: Step)
    requires step.Batch? && Allowed(s, step)
    ensures var r := Apply(s, step).records;
      && step.id in r && r[step.id].origins == step.origins && r[step.id].fee == step.fee
      && r[step.id].kind == WithoutSign && r[step.id].state == Create && r[step.id].symbol == step.symbol
      && forall x <- s.records ::
        x in r && r[x] == if x in step.origins then s.records[x].(state := Create) else s.records[x]
  {
    hide IsEth, Get, Adjust;
  }

  // ---- foreign ids are used once ----

  predicate Uses(s: Bridge, step: Step, key: string) {
    Allowed(s, step) &&
    match step
    case Deposit(_, _, foreign) => foreign == key
    case Result(_, foreign, symbol) => ResultKey(symbol, foreign) == key
    case ColdHotResult(_, foreign, symbol) => ResultKey(symbol, foreign) == key
    case _ => false
  }

  predicate Reopens(s: Bridge, step: Step, key: string) {
    Allowed(s, step) && step.Reopen? && ReopenKey(s.records, step.final, step.signed) == key
  }

  function TimesUsed(s: Bridge, steps: seq<Step>, key: string): nat
    decreases |steps|
  {
    if steps == [] then 0 else (if Uses(s, steps[0], key) then 1 else 0) + TimesUsed(Next(s, steps[0]), steps[1..], key)
  }

  function TimesReopened(s: Bridge, steps: seq<Step>, key: string): nat
    decreases |steps|
  {
    if steps == [] then 0
    else (if Reopens(s, steps[0], key) then 1 else 0) + TimesReopened(Next(s, steps[0]), steps[1..], key)
  }

  lemma UseTakesFreeId(s: Bridge, step: Step, key: string)
    ensures Uses(s, step, key) ==> Free(s.acquired, key) && !Free(Next(s, step).acquired, key)
    ensures !Uses(s, step, key) && !Reopens(s, step, key) ==> Free(Next(s, step).acquired, key) == Free(s.acquired, key)
  {
    hide Combined, Finalized, Confirmed, Batched, IsEth, ResultKey, Adjust;
  }

  /** In every run a foreign id is used at most once, as deposit, result or cold/hot result, plus once per reopening. */
  lemma {:induction false} UsedOnce(s: Bridge, steps: seq<Step>, key: string)
    ensures TimesUsed(s, steps, key) <= (if Free(s.acquired, key) then 1 else 0) + TimesReopened(s, steps, key)
    decreases |steps|
  {
    hide Uses, Reopens, Next, Free;
    if steps != [] {
      UseTakesFreeId(s, steps[0], key);
      ReopenIsNoUse(s, steps[0], key);
      UsedOnce(Next(s, steps[0]), steps[1..], key);
    }
  }

  lemma ReopenIsNoUse(s: Bridge, step: Step, key: string)
    ensures !(Uses(s, step, key) && Reopens(s, step, key))
  {}

  /**
   * A deposit of a foreign transaction rules out a result of the same transaction, except for barred ids of the ETH
   * family.
   */
  lemma DepositBlocksResult(s: Bridge, owner: nat, x: Amount, id: string, symbol: string)
    requires Allowed(s, Deposit(owner, x, id)) && Free(s.acquired, ResultKey(symbol, id))
    ensures !Free(Apply(s, Deposit(owner, x, id)).acquired, ResultKey(symbol, id)) <==> !(IsEth(symbol) && '|' in id)
  {
    hide IsEth, ResultKey;
    KeysAgree(symbol, id);
  }

  // ---- batches are confirmed once ----

  predicate Confirms(s: Bridge, step: Step, w: TrxId) {
    Allowed(s, step) && step.Result? && s.records[step.combine].relate == w
  }

  function TimesConfirmed(s: Bridge, steps: seq<Step>, w: TrxId): nat
    decreases |steps|
  {
    if steps == [] then 0
    else (if Confirms(s, steps[0], w) then 1 else 0) + TimesConfirmed(Next(s, steps[0]), steps[1..], w)
  }

  predicate IsConfirmed(records: Records, w: TrxId) {
    w in records && records[w].kind == WithoutSign && records[w].state == Confirm
  }

  lemma OtherBatchStays(records: Records, r: Records, w: TrxId, st: State, v: TrxId)
    requires Families(records) && w in records && records[w].kind == WithoutSign && Moves(records, r, w, st)
    requires v in records && records[v].kind == WithoutSign && v != w
    ensures r[v].kind == WithoutSign && r[v].state == records[v].state
  {
    hide IsEth, DisjointBatches, OneCombine, ReferenceOk;
    assert BatchOk(records, w);
    assert MovesAt(records, v, r[v], w, st);
  }

  lemma ConfirmedStays(s: Bridge, step: Step, v: TrxId)
    requires Invariant(s) && Allowed(s, step) && Steady(s, step) && IsConfirmed(s.records, v)
    ensures IsConfirmed(Apply(s, step).records, v)
  {
    hide Families, IsEth, Moves, Combined, Finalized, Confirmed, Advanced, Used, Free, Get, Adjust, Carried;
    match step
    case Combine(id, signature, foreign, symbol) =>
      CombineKeeps(s, step);
      var r: Records := Combined(s.records, id, s.records[signature].relate, foreign, symbol);
      CombinedMoves(s.records, id, s.records[signature].relate, foreign, symbol);
      OtherBatchStays(s.records, r - {id}, s.records[signature].relate,
                      if IsEth(symbol) then EthNeedSign else CombineCreate, v);
    case Finalize(id, kind, c, foreign, symbol) =>
      OnlyCombine(s.records, c);
      var r: Records := Finalized(s.records, id, kind, c, AfterBar(foreign), symbol);
      FinalizedMoves(s.records, id, kind, c, AfterBar(foreign), symbol);
      OtherBatchStays(s.records, r - {id}, s.records[c].relate, EthSign, v);
    case Result(c, foreign, symbol) =>
      ResultFindsOpen(s, c, foreign, symbol);
      ConfirmedMoves(s.records, s.records[c].relate);
      MovesKeys(s.records, Confirmed(s.records, s.records[c].relate), s.records[c].relate, Confirm);
      OtherBatchStays(s.records, Confirmed(s.records, s.records[c].relate), s.records[c].relate, Confirm, v);
    case _ =>
  }

  lemma ResultConfirms(s: Bridge, step: Step)
    requires Invariant(s) && step.Result? && Allowed(s, step) && Steady(s, step)
    ensures var w := s.records[step.combine].relate;
      !IsConfirmed(s.records, w) && IsConfirmed(Apply(s, step).records, w)
  {
    hide Families, IsEth, Moves, Confirmed, Advanced, Used, Free, Adjust, ResultKey;
    var w := s.records[step.combine].relate;
    ResultFindsOpen(s, step.combine, step.foreign, step.symbol);
    ConfirmedMoves(s.records, w);
    MovesKeys(s.records, Confirmed(s.records, w), w, Confirm);
    MovesShape(s.records, Confirmed(s.records, w), w, Confirm);
  }

  /** In every steady run each batch is confirmed at most once. */
  lemma {:induction false} ConfirmedOnce(s: Bridge, steps: seq<Step>, w: TrxId)
    requires Invariant(s) && SteadyRun(s, steps)
    ensures TimesConfirmed(s, steps, w) <= if IsConfirmed(s.records, w) then 0 else 1
    decreases |steps|
  {
    hide Invariant, Allowed, Apply, IsConfirmed, Steady;
    if steps != [] {
      if Allowed(s, steps[0]) {
        StepKeeps(s, steps[0]);
        if IsConfirmed(s.records, w) {
          ConfirmedStays(s, steps[0], w);
        }
        if steps[0].Result? {
          ResultConfirms(s, steps[0]);
        }
      }
      ConfirmedOnce(Next(s, steps[0]), steps[1..], w);
    }
  }
}
