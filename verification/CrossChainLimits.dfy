/** What the cross-chain evaluators let through: the inputs behind the conditions on steps and runs. */
module CrossChainLimits {
  import opened MapSum
  import opened ForeignIds
  import opened CrossChainSpec
  import opened CrossChainLaws
  import opened CrossChainRun

  // ---- a result under a symbol outside the ETH family ----

  /**
   * The result under another symbol, the final signature that was awaited, and the result under the combination's
   * symbol.
   */
  function SecondResult(s: Bridge, c: TrxId, foreign: string, symbol: string, id: TrxId, signed: string): seq<Step>
    requires c in s.records
  {
    [Result(c, foreign, symbol), Finalize(id, SignFinal, c, signed, s.records[c].symbol),
     Result(c, signed, s.records[c].symbol)]
  }

  lemma ThreeSteps(s: Bridge, a: Step, b: Step, c: Step, w: TrxId)
    ensures Run(s, [a, b, c]) == Next(Next(Next(s, a), b), c)
    ensures TimesConfirmed(s, [a, b, c], w)
      == (if Confirms(s, a, w) then 1 else 0) + (if Confirms(Next(s, a), b, w) then 1 else 0)
      + (if Confirms(Next(Next(s, a), b), c, w) then 1 else 0)
  {
    hide Next, Confirms;
    var s1, s2 := Next(s, a), Next(Next(s, a), b);
    assert [a, b, c][1..] == [b, c] && [b, c][1..] == [c] && [c][1..] == [];
    assert Run(s, [a, b, c]) == Run(s1, [b, c]) == Run(s2, [c]) == Run(Next(s2, c), []);
    assert TimesConfirmed(s2, [c], w) == (if Confirms(s2, c, w) then 1 else 0) + TimesConfirmed(Next(s2, c), [], w);
    assert TimesConfirmed(s1, [b, c], w) == (if Confirms(s1, b, w) then 1 else 0) + TimesConfirmed(s2, [c], w);
  }

  lemma NoBar(id: string)
    requires '|' !in id
    ensures AfterBar(id) == id
  {}

  /** A batch apart from w is not rewritten; nothing but state and foreign id is. */
  lemma RewrittenElsewhere(records: Records, w: TrxId, x: TrxId, f: string)
    requires w in records && x in records && Apart(records, w)
    ensures var r := Rewritten(records, w, x, {EthNeedSign}, EthSign, Set(f), Set(f));
      && r == records[x].(state := r.state, foreign := r.foreign)
      && (x == w ==> r.state == EthSign)
      && (records[x].kind == WithoutSign && x != w ==> r == records[x])
  {}

  lemma FinalizedShape(records: Records, id: TrxId, c: TrxId, f: string, symbol: string)
    requires c in records && id !in records && records[c].kind == CombineSign && records[c].relate in records
    requires Apart(records, records[c].relate) && c !in records[records[c].relate].origins
    ensures var w, r := records[c].relate, Finalized(records, id, SignFinal, c, f, symbol);
      && r.Keys == records.Keys + {id} && r[c] == records[c].(state := EthSign, foreign := f)
      && r[id] == Record(SignFinal, w, [], EthSign, f, NO_FEE, symbol) && r[w].state == EthSign
      && (forall x <- records :: r[x] == records[x].(state := r[x].state, foreign := r[x].foreign))
      && (forall x <- records :: records[x].kind == WithoutSign && x != w ==> r[x] == records[x])
  {
    hide Finalized, Rewritten;
    var w, r := records[c].relate, Finalized(records, id, SignFinal, c, f, symbol);
    FinalizedAt(records, id, SignFinal, c, f, symbol);
    forall x <- records
      ensures r[x] == records[x].(state := r[x].state, foreign := r[x].foreign) && (x == w ==> r[x].state == EthSign)
      ensures records[x].kind == WithoutSign && x != w ==> r[x] == records[x]
    {
      RewrittenElsewhere(records, w, x, f);
    }
  }

  /** A final signature on a combination whose batch is confirmed already takes the batch back. */
  lemma FinalizedAgain(records: Records, id: TrxId, c: TrxId, f: string, symbol: string, a: AssetId)
    requires c in records && id !in records && records[c].kind == CombineSign && records[c].relate in records
    requires var w := records[c].relate;
      Apart(records, w) && c !in records[w].origins && id !in records[w].origins && records[w].state == Confirm
    ensures var w, r := records[c].relate, Finalized(records, id, SignFinal, c, f, symbol);
      && r.Keys == records.Keys + {id} && r[c] == records[c].(state := EthSign, foreign := f)
      && r[w].origins == records[w].origins && r[w].fee == records[w].fee && r[w].state == EthSign && Apart(r, w)
      && Sum(r, FeeIn(a)) == Sum(records, FeeIn(a)) + if records[w].fee.asset == a then records[w].fee.n else 0
  {
    hide Sum, Finalized;
    var w := records[c].relate;
    var r: Records := Finalized(records, id, SignFinal, c, f, symbol);
    FinalizedShape(records, id, c, f, symbol);
    var base: Records := r - {id};
    assert r == base[id := r[id]];
    AddedFees(base, id, r[id], a);
    SumChanges(records, base, FeeIn(a), w);
  }

  /** After the result under another symbol the batch is confirmed, and its combination still awaits the signature. */
  lemma AfterResult(s: Bridge, c: TrxId, foreign: string, symbol: string, a: AssetId)
    requires Invariant(s) && Allowed(s, Result(c, foreign, symbol)) && !Steady(s, Result(c, foreign, symbol))
    ensures var w, r := s.records[c].relate, Apply(s, Result(c, foreign, symbol)).records;
      && r.Keys == s.records.Keys && r[c] == s.records[c] && r[c].kind == CombineSign && r[c].state == EthNeedSign
      && IsEth(r[c].symbol)
      && c !in r[w].origins && r[w].origins == s.records[w].origins && (forall o <- r[w].origins :: o in r)
      && r[w].state == Confirm && r[w].fee == s.records[w].fee && Apart(r, w)
      && Sum(r, FeeIn(a)) == Sum(s.records, FeeIn(a)) - if s.records[w].fee.asset == a then s.records[w].fee.n else 0
  {
    hide Families, Sum, Confirmed, IsEth, ResultKey, Apart, Advanced, Used;
    var w := s.records[c].relate;
    ResultFindsOpen(s, c, foreign, symbol);
    OnlyCombine(s.records, c);
    BatchesApart(s.records, w);
    assert BatchOk(s.records, w) by { BatchOf(s.records, w); }
    CombineApart(s.records, c);
    ConfirmedRelated(s.records, c);
    ConfirmedFees(s.records, w, a);
    ConfirmedApart(s.records, w);
  }

  /** From there the final signature and the second result are accepted. */
  lemma AfterSignature(s: Bridge, c: TrxId, id: TrxId, signed: string, a: AssetId)
    requires s.inBlock && c in s.records && s.records[c].kind == CombineSign && s.records[c].state == EthNeedSign
    requires IsEth(s.records[c].symbol)
    requires var w := s.records[c].relate;
      && w in s.records && s.records[w].state == Confirm && Apart(s.records, w) && c !in s.records[w].origins
      && forall o <- s.records[w].origins :: o in s.records
    requires Fresh(s.records, id) && '|' !in signed && Free(s.acquired, signed)
    ensures var symbol, fee := s.records[c].symbol, s.records[s.records[c].relate].fee;
      && Allowed(s, Finalize(id, SignFinal, c, signed, symbol))
      && var t := Apply(s, Finalize(id, SignFinal, c, signed, symbol));
      && Allowed(t, Result(c, signed, symbol)) && t.records[c].relate == s.records[c].relate
      && var r := Apply(t, Result(c, signed, symbol));
      && r == t.(records := r.records, acquired := r.acquired, collected := Adjust(s.collected, fee.asset, fee.n))
      && t == s.(records := t.records) && Sum(r.records, FeeIn(a)) == Sum(s.records, FeeIn(a))
  {
    hide Sum, Confirmed, Finalized, IsEth, ResultKey, Apart;
    var w, symbol := s.records[c].relate, s.records[c].symbol;
    NoBar(signed);
    KeysAgree(symbol, signed);
    FinalizedAgain(s.records, id, c, signed, symbol, a);
    var t := Apply(s, Finalize(id, SignFinal, c, signed, symbol));
    ConfirmedFees(t.records, w, a);
  }

  /**
   * Whenever a combination awaits its ETH signature, a result whose symbol is outside the ETH family is accepted, and
   * its batch can then be confirmed a second time: its fee is collected twice, and the supply falls short by it.
   */
  lemma ConfirmedTwice(s: Bridge, c: TrxId, foreign: string, symbol: string, id: TrxId, signed: string)
    requires Invariant(s) && Allowed(s, Result(c, foreign, symbol)) && !Steady(s, Result(c, foreign, symbol))
    requires Fresh(s.records, id) && '|' !in signed && Free(s.acquired, signed) && signed != ResultKey(symbol, foreign)
    ensures var w, steps := s.records[c].relate, SecondResult(s, c, foreign, symbol, id, signed);
      && w in s.records && TimesConfirmed(s, steps, w) == 2
      && var fee := s.records[w].fee;
      && Get(Run(s, steps).collected, fee.asset) == Get(s.collected, fee.asset) + 2 * fee.n
      && (fee.asset != CORE ==> Drift(Run(s, steps), fee.asset) == Drift(s, fee.asset) - fee.n)
  {
    hide Invariant, Sum, Confirmed, Finalized, IsEth, ResultKey, Apart, Run, TimesConfirmed, Steady;
    var w, a := s.records[c].relate, s.records[s.records[c].relate].fee.asset;
    AfterResult(s, c, foreign, symbol, a);
    var s1 := Apply(s, Result(c, foreign, symbol));
    AfterSignature(s1, c, id, signed, a);
    ThreeSteps(s, Result(c, foreign, symbol), Finalize(id, SignFinal, c, signed, s.records[c].symbol),
               Result(c, signed, s.records[c].symbol), w);
  }

  lemma BatchOf(records: Records, w: TrxId)
    requires Families(records) && w in records
    ensures BatchOk(records, w)
  {}

  lemma ConfirmedApart(records: Records, w: TrxId)
    requires w in records && Apart(records, w)
    ensures var r := Confirmed(records, w);
      && r.Keys == records.Keys && r[w].origins == records[w].origins && r[w].fee == records[w].fee && Apart(r, w)
  {}

  lemma NoFees(records: Records, a: AssetId)
    requires forall x <- records :: records[x].kind != WithoutSign
    ensures Sum(records, FeeIn(a)) == 0
  {
    SumZero(records, FeeIn(a));
  }

  /** An ETH batch with fee 5: one withdrawal, the batch, its combination. */
  function EthBatch(k: nat, st: State): Records {
    map[k + 1 := Record(Withdraw, 0, [], st, "f", NO_FEE, "ETH"),
        k + 2 := Record(WithoutSign, k + 1, [k + 1], st, "", Amount(5, 1), "ETH"),
        k + 4 := Record(CombineSign, k + 2, [], st, "f", NO_FEE, "ETH")]
  }

  lemma EthIsEth()
    ensures IsEth("ETH")
  {}

  lemma EthBatchRecord(k: nat, st: State, x: TrxId)
    requires st in {EthNeedSign, EthSign, Confirm} && x in EthBatch(k, st)
    ensures var r := EthBatch(k, st); BatchOk(r, x) && ReferenceOk(r, x) && WithdrawOk(r, x)
  {
    hide IsEth;
    EthIsEth();
  }

  lemma EthBatchFamilies(k: nat, st: State)
    requires st in {EthNeedSign, EthSign, Confirm}
    ensures Families(EthBatch(k, st)) && Advanced(EthBatch(k, st))
  {
    hide IsEth, BatchOk, ReferenceOk, EthBatch;
    var r := EthBatch(k, st);
    EthBatchKinds(k, st);
    forall x <- r ensures BatchOk(r, x) && ReferenceOk(r, x) && WithdrawOk(r, x) {
      EthBatchRecord(k, st, x);
    }
    assert r[k + 4].kind == CombineSign && r[k + 4].relate == k + 2;
  }

  lemma EthBatchKinds(k: nat, st: State)
    ensures var r := EthBatch(k, st);
      && k + 4 in r && r[k + 4].kind == CombineSign && r[k + 4].relate == k + 2
      && forall x <- r :: (r[x].kind == WithoutSign ==> x == k + 2) && (r[x].kind == CombineSign ==> x == k + 4)
  {}

  function Awaiting(): Bridge {
    Bridge(map[], map[1 := 5], map[], map[], true, EthBatch(0, EthNeedSign), map[])
  }

  lemma AwaitingInvariant()
    ensures Invariant(Awaiting())
  {
    hide IsEth, Families, Advanced;
    EthBatchFamilies(0, EthNeedSign);
  }

  lemma AwaitingBacked()
    ensures Backed(Awaiting())
  {
    hide Sum;
    var r := EthBatch(0, EthNeedSign);
    forall a | a != CORE ensures Drift(Awaiting(), a) == 0 {
      NoFees(r - {2}, a);
      SumRemove(r, FeeIn(a), 2);
      SumZero<Holder, int>(map[], BalanceIn(a));
    }
  }

  /**
   * The input: a result in the name of BTC confirms it, and it is confirmed again for ETH. Ten is collected for a
   * fee of five.
   */
  lemma ConfirmedTwiceExists()
    ensures var s := Awaiting();
      && Invariant(s) && Backed(s) && Allowed(s, Result(4, "f", "BTC"))
      && !Families(Apply(s, Result(4, "f", "BTC")).records)
      && var steps := SecondResult(s, 4, "f", "BTC", 5, "g");
      && TimesConfirmed(s, steps, 2) == 2 && Get(Run(s, steps).collected, 1) == 10 && !Backed(Run(s, steps))
  {
    hide Invariant, Drift, Run, TimesConfirmed, IsEth, Confirmed;
    AwaitingInvariant();
    AwaitingBacked();
    BtcIsNotEth();
    var s := Awaiting();
    assert ResultKey("BTC", "f") == "f";
    assert Allowed(s, Result(4, "f", "BTC"));
    TornResult(s, 4, "f", "BTC");
    ConfirmedTwice(s, 4, "f", "BTC", 5, "g");
    assert Drift(s, 1) == 0;
  }

  // ---- a reopened id ----

  /** Some result can confirm a batch that is confirmed already. */
  ghost predicate CanConfirmAgain(s: Bridge) {
    exists step: Step, w: TrxId :: Confirms(s, step, w) && IsConfirmed(s.records, w)
  }

  /** A confirmed combination has a free id. */
  predicate FreeAgain(s: Bridge) {
    exists c <- s.records ::
      s.records[c].kind == CombineSign && s.records[c].state == Confirm && Free(s.acquired, s.records[c].foreign)
  }

  /** An accepted result that finds its batch confirmed finds the combination confirmed, and its id free. */
  lemma AgainIsCarried(s: Bridge, step: Step, w: TrxId)
    requires Families(s.records) && Confirms(s, step, w) && IsConfirmed(s.records, w)
    ensures FreeAgain(s)
  {
    hide IsEth, ResultKey, Families, Free;
    OnlyCombine(s.records, step.combine);
  }

  /** A confirmed combination whose id is free takes a result under any symbol outside the ETH family. */
  lemma FreeConfirmsAgain(s: Bridge, c: TrxId)
    requires Families(s.records) && s.inBlock && c in s.records && s.records[c].kind == CombineSign
    requires s.records[c].state == Confirm
    requires Free(s.acquired, s.records[c].foreign)
    ensures CanConfirmAgain(s)
  {
    hide IsEth, ResultKey, Families, Free;
    OnlyCombine(s.records, c);
    BatchOf(s.records, s.records[c].relate);
    BtcIsNotEth();
    KeysAgree("BTC", s.records[c].foreign);
    assert Confirms(s, Result(c, s.records[c].foreign, "BTC"), s.records[c].relate);
  }

  lemma AgainIff(s: Bridge)
    requires Families(s.records) && s.inBlock
    ensures CanConfirmAgain(s) <==> FreeAgain(s)
  {
    hide Families, Confirms, IsConfirmed, Free;
    if CanConfirmAgain(s) {
      var step: Step, w: TrxId :| Confirms(s, step, w) && IsConfirmed(s.records, w);
      AgainIsCarried(s, step, w);
    }
    if FreeAgain(s) {
      var c :| c in s.records && s.records[c].kind == CombineSign && s.records[c].state == Confirm
               && Free(s.acquired, s.records[c].foreign);
      FreeConfirmsAgain(s, c);
    }
  }

  /**
   * No batch can be confirmed again before the reopening; after it one can be exactly when a confirmed combination
   * carries the id.
   */
  lemma ReopenConfirmsAgainIff(s: Bridge, final: TrxId, signed: string)
    requires Invariant(s) && Allowed(s, Reopen(final, signed))
    ensures !CanConfirmAgain(s)
    ensures var t := Apply(s, Reopen(final, signed));
      CanConfirmAgain(t) <==> Carried(s.records, ReopenKey(s.records, final, signed))
  {
    hide IsEth, ResultKey, Families, Advanced, CanConfirmAgain;
    AgainIff(s);
    AgainIff(Apply(s, Reopen(final, signed)));
  }

  lemma UnionRecord(a: Records, b: Records, x: TrxId)
    requires Families(a) && a.Keys !! b.Keys && x in a
    ensures BatchOk(a + b, x) && ReferenceOk(a + b, x) && WithdrawOk(a + b, x)
    ensures BatchOk(b + a, x) && ReferenceOk(b + a, x) && WithdrawOk(b + a, x)
  {
    hide IsEth, DisjointBatches, OneCombine;
    assert BatchOk(a, x) && ReferenceOk(a, x) && WithdrawOk(a, x);
  }

  /** Records that do not share ids do not disturb one another. */
  lemma UnionFamilies(a: Records, b: Records)
    requires Families(a) && Families(b) && a.Keys !! b.Keys && Advanced(a) && Advanced(b)
    ensures Families(a + b) && Advanced(a + b)
  {
    hide IsEth, ReferenceOk, HasCombine;
    var r := a + b;
    forall x <- r ensures BatchOk(r, x) && ReferenceOk(r, x) && WithdrawOk(r, x) {
      if x in a { UnionRecord(a, b, x); } else { UnionRecord(b, a, x); }
    }
    assert OneCombine(r) by { UnionCombine(a, b); }
    forall w <- r | r[w].kind == WithoutSign && r[w].state != Create ensures HasCombine(r, w) {
      if w in a { StillCombined(a, r, w); } else { StillCombined(b, r, w); }
    }
  }

  lemma UnionCombine(a: Records, b: Records)
    requires Families(a) && Families(b) && a.Keys !! b.Keys
    ensures OneCombine(a + b)
  {
    hide IsEth, DisjointBatches, BatchOk;
    forall c <- a | a[c].kind == CombineSign ensures a[c].relate in a { assert ReferenceOk(a, c); }
    forall c <- b | b[c].kind == CombineSign ensures b[c].relate in b { assert ReferenceOk(b, c); }
  }

  /** Two batches under one foreign id, the one signed, the other confirmed. */
  function SharedRecords(): Records {
    (EthBatch(0, EthSign) + EthBatch(10, Confirm))[5 := Record(SignFinal, 2, [], EthSign, "f", NO_FEE, "ETH")]
  }

  lemma SharedInvariant(acquired: map<string, Acquired>)
    requires !Free(acquired, "f")
    ensures Invariant(Bridge(map[], map[], map[], map[], true, SharedRecords(), acquired))
  {
    hide IsEth, Families, Advanced, Free;
    EthBatchFamilies(0, EthSign);
    EthBatchFamilies(10, Confirm);
    var both := EthBatch(0, EthSign) + EthBatch(10, Confirm);
    UnionFamilies(EthBatch(0, EthSign), EthBatch(10, Confirm));
    AddFollower(both, 5, Record(SignFinal, 2, [], EthSign, "f", NO_FEE, "ETH"));
    AddedAdvanced(both, 5, Record(SignFinal, 2, [], EthSign, "f", NO_FEE, "ETH"));
  }

  /** The input: the id of a signed batch is reopened while a confirmed batch carries it. */
  lemma ReopenConfirmsAgainExists() returns (s: Bridge)
    ensures Invariant(s) && Allowed(s, Reopen(5, "f")) && !Steady(s, Reopen(5, "f"))
    ensures CanConfirmAgain(Apply(s, Reopen(5, "f")))
  {
    hide Invariant, CanConfirmAgain, IsEth;
    s := Bridge(map[], map[], map[], map[], true, SharedRecords(), map["f" := AcquiredConfirmed]);
    SharedInvariant(s.acquired);
    NoBar("f");
    KeysAgree("ETH", "f");
    assert s.records[14].foreign == "f" && s.records[14].kind == CombineSign && s.records[14].state == Confirm;
    ReopenConfirmsAgainIff(s, 5, "f");
  }

  // ---- fees in another asset, barred ids ----

  /** The input: a batch of asset 1 that books its fee of 5 in asset 2. */
  lemma UnbackedBatchExists() returns (s: Bridge, step: Step)
    ensures Invariant(s) && Backed(s) && step.Batch? && Allowed(s, step) && !Backed(Apply(s, step))
  {
    hide Sum, IsEth;
    s := Bridge(map[], map[], map[], map[], true, map[1 := Record(Withdraw, 0, [], Uncreate, "", NO_FEE, "BTC")],
                map[]);
    step := Batch(2, [1], 1, Amount(5, 2), "BTC");
    forall a | a != CORE ensures Drift(s, a) == 0 {
      NoFees(s.records, a);
      SumZero<Holder, int>(map[], BalanceIn(a));
    }
    BatchBackedIff(s, step);
  }

  /** The input: after the deposit of an ETH transaction with a barred id, the key of its result is still free. */
  lemma BarredDepositExists() returns (s: Bridge, step: Step)
    ensures Invariant(s) && step == Deposit(1, Amount(7, 1), "a|b") && Allowed(s, step)
    ensures Free(Apply(s, step).acquired, ResultKey("ETH", "a|b"))
  {
    hide IsEth, ResultKey;
    EthIsEth();
    s := Bridge(map[], map[], map[], map[], true, map[], map[]);
    step := Deposit(1, Amount(7, 1), "a|b");
    assert "a|b"[1] == '|';
    DepositBlocksResult(s, 1, Amount(7, 1), "a|b", "ETH");
  }
}
