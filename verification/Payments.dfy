/** Who is paid what: the market operations as lists of payments, and the orders they leave. */
module Payments {
  import opened Wrappers
  import opened MapSum
  import opened Ledger
  import opened MarketSpec
  import opened Floors
  import opened MarketLaws
  import opened MarketRun

  datatype Payment = Payment(who: Account, x: Amount)

  /** What a list of payments comes to for one holder. */
  function Due(ps: seq<Payment>, h: Holder): int {
    if ps == [] then 0
    else Due(ps[1..], h) + if h == Holder(ps[0].who, ps[0].x.asset) then ps[0].x.n else 0
  }

  /** From l to r the balances change by these payments and by nothing else. */
  ghost predicate Paid(l: Ledger, r: Ledger, ps: seq<Payment>) {
    forall h :: Get(r.balances, h) == Get(l.balances, h) + Due(ps, h)
  }

  lemma {:induction false} DueConcat(ps: seq<Payment>, qs: seq<Payment>, h: Holder)
    ensures Due(ps + qs, h) == Due(ps, h) + Due(qs, h)
    decreases |ps|
  {
    if ps == [] {
      assert ps + qs == qs;
    } else {
      assert (ps + qs)[1..] == ps[1..] + qs;
      DueConcat(ps[1..], qs, h);
    }
  }

  lemma DueOne(p: Payment, h: Holder)
    ensures Due([p], h) == if h == Holder(p.who, p.x.asset) then p.x.n else 0
  {
    assert [p][1..] == [];
  }

  lemma PaidTrans(l0: Ledger, l1: Ledger, l2: Ledger, ps: seq<Payment>, qs: seq<Payment>)
    requires Paid(l0, l1, ps) && Paid(l1, l2, qs)
    ensures Paid(l0, l2, ps + qs)
  {
    hide Due, Get;
    forall h ensures Get(l2.balances, h) == Get(l0.balances, h) + Due(ps + qs, h) {
      DueConcat(ps, qs, h);
    }
  }

  lemma PaidNothing(l: Ledger, r: Ledger)
    requires r.balances == l.balances
    ensures Paid(l, r, [])
  {}

  lemma CreditPays(l: Ledger, who: Account, x: Amount)
    ensures Paid(l, Credit(l, who, x), [Payment(who, x)])
  {
    forall h ensures Get(Credit(l, who, x).balances, h) == Get(l.balances, h) + Due([Payment(who, x)], h) {
      DueOne(Payment(who, x), h);
    }
  }

  lemma SameBalances(l: Ledger, r: Ledger, l': Ledger, r': Ledger, ps: seq<Payment>)
    requires Paid(l, r, ps) && l'.balances == l.balances && r'.balances == r.balances
    ensures Paid(l', r', ps)
  {
    hide Get;
  }

  // ---- market fees ----

  /** The fee is the lesser of the floored percentage and the maximum; without a percentage there is none. */
  lemma FeeExact(opts: AssetOptions, n: int)
    requires n >= 0
    ensures !opts.chargesFees || opts.feePercent == 0 ==> MarketFee(opts, n) == 0
    ensures opts.chargesFees && opts.feePercent > 0 ==>
      var fee := MarketFee(opts, n);
      && fee <= opts.maxFee && fee * FULL_PERCENT <= n * opts.feePercent
      && (fee == opts.maxFee || n * opts.feePercent < (fee + 1) * FULL_PERCENT)
  {
    FloorOf(n, opts.feePercent, FULL_PERCENT);
  }

  /** What a receiver gets of x after the market fee of its asset. */
  function AfterFee(assets: Assets, x: Amount): Amount {
    Amount(x.n - MarketFee(Options(assets, x.asset), x.n), x.asset)
  }

  lemma PayOutPays(l: Ledger, assets: Assets, who: Account, x: Amount)
    ensures var r := PayOut(l, assets, who, x);
      && Paid(l, r, [Payment(who, AfterFee(assets, x))])
      && MarketFeeBooked(l.fees, assets, x, r.fees)
      && r == l.(balances := r.balances, fees := r.fees)
  {
    hide MarketFee, Options, Paid;
    var fee := Amount(MarketFee(Options(assets, x.asset), x.n), x.asset);
    var l1 := AddFee(l, fee);
    CreditPays(l1, who, AfterFee(assets, x));
    SameBalances(l1, Credit(l1, who, AfterFee(assets, x)), l, PayOut(l, assets, who, x),
                 [Payment(who, AfterFee(assets, x))]);
  }

  // ---- limit orders ----

  /** A cancelled limit order gives its seller back what is for sale and the deferred fee. */
  lemma CancelLimitPays(l: Ledger, id: OrderId)
    requires id in l.limits
    ensures var o, r := l.limits[id], CancelLimit(l, id);
      && Paid(l, r, [Payment(o.seller, o.AmountForSale()), Payment(o.seller, Amount(o.deferredFee, CORE))])
      && r == l.(balances := r.balances, limits := l.limits - {id})
  {
    hide Adjust, Paid;
    var o := l.limits[id];
    var l1 := Credit(l, o.seller, o.AmountForSale());
    var l2 := Credit(l1, o.seller, Amount(o.deferredFee, CORE));
    CreditPays(l, o.seller, o.AmountForSale());
    CreditPays(l1, o.seller, Amount(o.deferredFee, CORE));
    var p, q := Payment(o.seller, o.AmountForSale()), Payment(o.seller, Amount(o.deferredFee, CORE));
    PaidTrans(l, l1, l2, [p], [q]);
    assert [p] + [q] == [p, q];
    SameBalances(l, l2, l, CancelLimit(l, id), [p, q]);
  }

  lemma CancelSettlePays(l: Ledger, id: OrderId)
    requires id in l.settles
    ensures var o, r := l.settles[id], CancelSettle(l, id);
      && Paid(l, r, [Payment(o.owner, o.balance)]) && r == l.(balances := r.balances, settles := l.settles - {id})
  {
    hide Adjust, Paid;
    var o := l.settles[id];
    CreditPays(l, o.owner, o.balance);
    SameBalances(l, Credit(l, o.owner, o.balance), l, CancelSettle(l, id), [Payment(o.owner, o.balance)]);
  }

  /** What is left of an order buys less than one unit at its own price. */
  predicate WorthNothing(o: LimitOrder) {
    0 <= o.forSale * o.sellPrice.quote.n < o.sellPrice.base.n
  }

  lemma WorthlessRest(o: LimitOrder)
    requires o.sellPrice.base.n > 0 && o.sellPrice.base.asset != o.sellPrice.quote.asset
    ensures Times(o.AmountForSale(), o.sellPrice).Some? ==>
      (Times(o.AmountForSale(), o.sellPrice).value.n == 0 <==> WorthNothing(o))
  {
    FloorOf(o.forSale, o.sellPrice.quote.n, o.sellPrice.base.n);
  }

  ghost predicate MarketFeeBooked(fees: map<AssetId, int>, assets: Assets, x: Amount, fees': map<AssetId, int>) {
    forall a :: Get(fees', a) == Get(fees, a) + if a == x.asset then x.n - AfterFee(assets, x).n else 0
  }

  /** The deferred fee of an order becomes the pending fee of its seller. */
  ghost predicate DeferredBooked(pending: map<Account, int>, o: LimitOrder, pending': map<Account, int>) {
    forall w :: Get(pending', w) == Get(pending, w) + if w == o.seller && o.deferredFee > 0 then o.deferredFee else 0
  }

  /** What a fill of a limit order does: to the seller, to the fees, and to the order. */
  ghost predicate LimitFilled(l: Ledger, assets: Assets, id: OrderId, pays: Amount, receives: Amount, cull: bool,
                              r: Ledger, done: bool)
    requires id in l.limits
  {
    var o := l.limits[id];
    var left := o.(forSale := o.forSale - pays.n, deferredFee := 0);
    var culled := cull && pays.n != o.forSale && WorthNothing(left);
    && (done <==> pays.n == o.forSale || culled)
    && Paid(l, r, [Payment(o.seller, AfterFee(assets, receives))]
                  + if culled then [Payment(o.seller, left.AmountForSale())] else [])
    && r.limits == (if done then l.limits - {id} else l.limits[id := left])
    && MarketFeeBooked(l.fees, assets, receives, r.fees) && DeferredBooked(l.pending, o, r.pending)
    && r == l.(balances := r.balances, limits := r.limits, pending := r.pending, fees := r.fees)
  }

  /** The ledger after the payment and the deferred fee of a fill, before the order is touched. */
  function LimitPaid(l: Ledger, assets: Assets, o: LimitOrder, receives: Amount): Ledger {
    AddPending(PayOut(l, assets, o.seller, receives), o.seller, if o.deferredFee > 0 then o.deferredFee else 0)
  }

  lemma LimitPaidDoes(l: Ledger, assets: Assets, o: LimitOrder, receives: Amount)
    ensures var r := LimitPaid(l, assets, o, receives);
      && Paid(l, r, [Payment(o.seller, AfterFee(assets, receives))])
      && MarketFeeBooked(l.fees, assets, receives, r.fees) && DeferredBooked(l.pending, o, r.pending)
      && r == l.(balances := r.balances, pending := r.pending, fees := r.fees)
  {
    hide PayOut, Paid, AfterFee;
    PayOutPays(l, assets, o.seller, receives);
    var out := PayOut(l, assets, o.seller, receives);
    SameBalances(l, out, l, LimitPaid(l, assets, o, receives),
                 [Payment(o.seller, AfterFee(assets, receives))]);
  }

  lemma FillLimitCases(l: Ledger, assets: Assets, id: OrderId, pays: Amount, receives: Amount, cull: bool)
    requires id in l.limits && SaneLimit(l.limits[id]) && FillLimit(l, assets, id, pays, receives, cull).Some?
    ensures var (r, done) := FillLimit(l, assets, id, pays, receives, cull).value;
      var o, paid := l.limits[id], LimitPaid(l, assets, l.limits[id], receives);
      var left := o.(forSale := o.forSale - pays.n, deferredFee := 0);
      if pays.n == o.forSale then done && r == DropLimit(paid, id)
      else if cull && WorthNothing(left) then done && r == CancelLimit(PutLimit(paid, id, left), id)
      else !done && r == PutLimit(paid, id, left)
  {
    hide Times, PayOut, CancelLimit, WorthNothing, Adjust;
    var o := l.limits[id];
    WorthlessRest(o.(forSale := o.forSale - pays.n, deferredFee := 0));
  }

  lemma FillLimitDoes(l: Ledger, assets: Assets, id: OrderId, pays: Amount, receives: Amount, cull: bool)
    requires id in l.limits && SaneLimit(l.limits[id]) && FillLimit(l, assets, id, pays, receives, cull).Some?
    ensures var (r, done) := FillLimit(l, assets, id, pays, receives, cull).value;
      LimitFilled(l, assets, id, pays, receives, cull, r, done)
  {
    hide FillLimit, CancelLimit, WorthNothing, Paid, AfterFee, LimitPaid, MarketFeeBooked, DeferredBooked;
    var o := l.limits[id];
    var (r, done) := FillLimit(l, assets, id, pays, receives, cull).value;
    var p := [Payment(o.seller, AfterFee(assets, receives))];
    var paid := LimitPaid(l, assets, o, receives);
    FillLimitCases(l, assets, id, pays, receives, cull);
    LimitPaidDoes(l, assets, o, receives);
    var left := o.(forSale := o.forSale - pays.n, deferredFee := 0);
    if pays.n != o.forSale && cull && WorthNothing(left) {
      CulledDoes(l, paid, id, left, p);
    } else {
      assert p + [] == p;
      SameBalances(l, paid, l, r, p);
    }
  }

  lemma CulledDoes(l: Ledger, paid: Ledger, id: OrderId, left: LimitOrder, p: seq<Payment>)
    requires Paid(l, paid, p) && id in l.limits && paid.limits == l.limits && left.deferredFee == 0
    ensures var r := CancelLimit(PutLimit(paid, id, left), id);
      && Paid(l, r, p + [Payment(left.seller, left.AmountForSale())])
      && r == paid.(balances := r.balances, limits := l.limits - {id})
  {
    hide CancelLimit, Paid;
    var shrunk := PutLimit(paid, id, left);
    SameBalances(l, paid, l, shrunk, p);
    CancelledRest(l, shrunk, id, p);
    assert shrunk.limits - {id} == l.limits - {id};
  }

  /** Cancelling the rest of a filled order, whose deferred fee is gone. */
  lemma CancelledRest(l: Ledger, shrunk: Ledger, id: OrderId, p: seq<Payment>)
    requires id in shrunk.limits && shrunk.limits[id].deferredFee == 0 && Paid(l, shrunk, p)
    ensures var o, r := shrunk.limits[id], CancelLimit(shrunk, id);
      && Paid(l, r, p + [Payment(o.seller, o.AmountForSale())])
      && r == shrunk.(balances := r.balances, limits := shrunk.limits - {id})
  {
    hide CancelLimit, Paid;
    var o := shrunk.limits[id];
    CancelLimitPays(shrunk, id);
    var q := [Payment(o.seller, o.AmountForSale())];
    NoFeeBack(shrunk, CancelLimit(shrunk, id), q[0], Payment(o.seller, Amount(0, CORE)));
    PaidTrans(l, shrunk, CancelLimit(shrunk, id), p, q);
  }

  lemma NoFeeBack(l: Ledger, r: Ledger, p: Payment, q: Payment)
    requires Paid(l, r, [p, q]) && q.x.n == 0
    ensures Paid(l, r, [p])
  {
    forall h ensures Due([p, q], h) == Due([p], h) {
      assert [p, q] == [p] + [q];
      DueConcat([p], [q], h);
      DueOne(q, h);
    }
  }

  // ---- call orders and settlements ----

  /** What a fill of a call order does: the borrower gets the rest of the collateral once the debt is gone. */
  ghost predicate CallFilled(l: Ledger, id: OrderId, pays: Amount, receives: Amount, r: Ledger, done: bool)
    requires id in l.calls
  {
    var o := l.calls[id];
    var left := o.(debt := o.debt - receives.n, collateral := o.collateral - pays.n);
    && (done <==> o.debt == receives.n)
    && Paid(l, r, if done then [Payment(o.borrower, left.Collateral())] else [])
    && r.calls == (if done then l.calls - {id} else l.calls[id := left])
    && (forall a :: Get(r.supply, a) == Get(l.supply, a) - if a == receives.asset then receives.n else 0)
    && r == l.(balances := r.balances, calls := r.calls, supply := r.supply)
  }

  lemma FillCallDoes(l: Ledger, id: OrderId, pays: Amount, receives: Amount)
    requires id in l.calls && FillCall(l, id, pays, receives).Some?
    ensures var (r, done) := FillCall(l, id, pays, receives).value; CallFilled(l, id, pays, receives, r, done)
  {
    hide Paid, Adjust, Get;
    var o := l.calls[id];
    var (r, done) := FillCall(l, id, pays, receives).value;
    var burned := Mint(l, Amount(-receives.n, receives.asset));
    var left := o.(debt := o.debt - receives.n, collateral := o.collateral - pays.n);
    if done {
      CreditPays(burned, o.borrower, left.Collateral());
      SameBalances(burned, Credit(burned, o.borrower, left.Collateral()), l, r,
                   [Payment(o.borrower, left.Collateral())]);
    } else {
      PaidNothing(l, r);
    }
  }

  /** What a fill of a request does. */
  ghost predicate RequestFilled(l: Ledger, assets: Assets, id: OrderId, pays: Amount, receives: Amount, r: Ledger)
    requires id in l.settles
  {
    var o := l.settles[id];
    && Paid(l, r, [Payment(o.owner, AfterFee(assets, receives))])
    && r.settles == (if pays.n < o.balance.n
                     then l.settles[id := o.(balance := Amount(o.balance.n - pays.n, o.balance.asset))]
                     else l.settles - {id})
    && MarketFeeBooked(l.fees, assets, receives, r.fees)
    && r == l.(balances := r.balances, settles := r.settles, fees := r.fees)
  }

  lemma FillSettleDoes(l: Ledger, assets: Assets, id: OrderId, pays: Amount, receives: Amount)
    requires id in l.settles
    ensures RequestFilled(l, assets, id, pays, receives, FillSettle(l, assets, id, pays, receives).0)
  {
    hide PayOut, Paid, AfterFee;
    var o, r := l.settles[id], FillSettle(l, assets, id, pays, receives).0;
    PayOutPays(l, assets, o.owner, receives);
    SameBalances(l, PayOut(l, assets, o.owner, receives), l, r, [Payment(o.owner, AfterFee(assets, receives))]);
  }

  // ---- global settlement ----

  /** What the debt of an order is worth at p, rounded down. */
  function DebtWorth(o: CallOrder, p: Price): int {
    if p.base.asset == o.Debt().asset && p.base.n > 0 then o.debt * p.quote.n / p.base.n
    else if p.base.asset != o.Debt().asset && p.quote.n > 0 then o.debt * p.base.n / p.quote.n
    else 0
  }

  /** What a settlement at p takes of an order: its worth, or all the collateral if that is less. */
  function Taken(o: CallOrder, p: Price): int {
    if DebtWorth(o, p) <= o.collateral then DebtWorth(o, p) else o.collateral
  }

  ghost function TakenIn(m: AssetId, p: Price): (OrderId, CallOrder) -> int {
    (k: OrderId, o: CallOrder) => if o.Debt().asset == m then Taken(o, p) else 0
  }

  /** What a settlement leaves of the collateral for one holder. */
  ghost function FreedTo(m: AssetId, p: Price, h: Holder): (OrderId, CallOrder) -> int {
    (k: OrderId, o: CallOrder) =>
      if o.Debt().asset == m && h == Holder(o.borrower, o.Collateral().asset) then o.collateral - Taken(o, p) else 0
  }

  lemma TimesIsWorth(o: CallOrder, p: Price)
    requires Times(o.Debt(), p).Some?
    ensures Times(o.Debt(), p).value.n == DebtWorth(o, p)
  {}

  /** One call order closed at p. */
  lemma ClosePays(l: Ledger, m: AssetId, id: OrderId, p: Price, l1: Ledger)
    requires id in l.calls && l.calls[id].Debt().asset == m
    requires var o := l.calls[id]; CallFilled(l, id, Amount(Taken(o, p), o.Collateral().asset), o.Debt(), l1, true)
    ensures l1.calls == l.calls - {id}
    ensures Sum(l.calls, TakenIn(m, p)) == Taken(l.calls[id], p) + Sum(l1.calls, TakenIn(m, p))
    ensures forall h ::
      Get(l1.balances, h) + Sum(l1.calls, FreedTo(m, p, h)) == Get(l.balances, h) + Sum(l.calls, FreedTo(m, p, h))
  {
    hide Sum, Taken, Get;
    var o := l.calls[id];
    SumRemove(l.calls, TakenIn(m, p), id);
    forall h ensures Get(l1.balances, h) + Sum(l1.calls, FreedTo(m, p, h))
      == Get(l.balances, h) + Sum(l.calls, FreedTo(m, p, h))
    {
      SumRemove(l.calls, FreedTo(m, p, h), id);
      DueOne(Payment(o.borrower, Amount(o.collateral - Taken(o, p), o.Collateral().asset)), h);
    }
  }

  /** The order in which the call orders are closed does not matter. */
  lemma {:induction false} CloseCallsPays(l: Ledger, m: AssetId, ids: seq<OrderId>, p: Price, gathered: int)
    requires Sane(l) && m in l.bits && Lists(l, m, ids) && SanePrice(p) && CloseCalls(l, ids, p, gathered).Some?
    ensures var (r, g) := CloseCalls(l, ids, p, gathered).value;
      && g == gathered + Sum(l.calls, TakenIn(m, p))
      && (forall h :: Get(r.balances, h) == Get(l.balances, h) + Sum(l.calls, FreedTo(m, p, h)))
      && r.calls == map c <- l.calls | l.calls[c].Debt().asset != m :: l.calls[c]
    decreases |ids|
  {
    hide Get, FillCall, Times, Sane, Sum, Taken, CallFilled;
    if ids != [] {
      var o := l.calls[ids[0]];
      SaneCallOrder(l, ids[0]);
      TimesIsWorth(o, p);
      TimesNonNegative(o.Debt(), p);
      TakenIsLess(o, p);
      var pays := Amount(Taken(o, p), o.Collateral().asset);
      FillCallFrame(l, ids[0], pays, o.Debt());
      FillCallSane(l, ids[0], pays, o.Debt());
      FillCallDoes(l, ids[0], pays, o.Debt());
      var l1 := FillCall(l, ids[0], pays, o.Debt()).value.0;
      ListsTail(l, m, ids, l1);
      ClosePays(l, m, ids[0], p, l1);
      CloseCallsPays(l1, m, ids[1..], p, gathered + pays.n);
    } else {
      NoneTaken(l, m, p);
    }
  }

  lemma TakenIsLess(o: CallOrder, p: Price)
    requires DebtWorth(o, p) >= 0 && o.collateral >= 0
    ensures Taken(o, p) == Min(DebtWorth(o, p), o.collateral) >= 0
  {}

  lemma NoneTaken(l: Ledger, m: AssetId, p: Price)
    requires forall c <- l.calls :: l.calls[c].Debt().asset != m
    ensures Sum(l.calls, TakenIn(m, p)) == 0 && forall h :: Sum(l.calls, FreedTo(m, p, h)) == 0
  {
    hide Taken;
    SumZero(l.calls, TakenIn(m, p));
    forall h ensures Sum(l.calls, FreedTo(m, p, h)) == 0 {
      SumZero(l.calls, FreedTo(m, p, h));
    }
  }

  /**
   * What a global settlement of m at p does: the fund is what the call orders owe at p, as far as their collateral
   * goes;
   * each borrower gets back exactly the rest; no other balance changes; the supply stays and fixes the price.
   */
  ghost predicate GloballySettled(l: Ledger, m: AssetId, p: Price, r: Ledger)
    requires m in l.bits
  {
    var fund := Sum(l.calls, TakenIn(m, p));
    && (forall h :: Get(r.balances, h) == Get(l.balances, h) + Sum(l.calls, FreedTo(m, p, h)))
    && r.calls == (map c <- l.calls | l.calls[c].Debt().asset != m :: l.calls[c])
    && r.bits == l.bits[m := l.bits[m].(fund := fund, settlement :=
         Some(Price(Amount(Get(l.supply, m), m), Amount(fund, l.bits[m].backing))))]
    && (forall a :: Get(r.supply, a) == Get(l.supply, a))
    && r.limits == l.limits && r.settles == l.settles && r.fees == l.fees && r.pending == l.pending
  }

  lemma GlobalSettleDoes(l: Ledger, m: AssetId, p: Price, ids: seq<OrderId>)
    requires Invariant(l) && m in l.bits && Lists(l, m, ids) && SanePrice(p) && GlobalSettle(l, m, p, ids).Some?
    ensures GloballySettled(l, m, p, GlobalSettle(l, m, p, ids).value)
  {
    hide CloseCalls, Sane, Sum, Taken, Lists, Gap, DebtTotal, Covered;
    CloseCallsPays(l, m, ids, p, 0);
    CloseCallsFrame(l, m, ids, p, 0);
  }

  lemma {:induction false} CloseCallsFrame(l: Ledger, m: AssetId, ids: seq<OrderId>, p: Price, gathered: int)
    requires Lists(l, m, ids) && CloseCalls(l, ids, p, gathered).Some?
    ensures var r := CloseCalls(l, ids, p, gathered).value.0;
      && r == l.(balances := r.balances, calls := r.calls, supply := r.supply)
      && forall a :: a != m ==> Get(r.supply, a) == Get(l.supply, a)
    decreases |ids|
  {
    hide Get, FillCall, Times, CallFilled;
    if ids != [] {
      var o := l.calls[ids[0]];
      var worth := Times(o.Debt(), p).value;
      var pays := Amount(Min(worth.n, o.collateral), worth.asset);
      FillCallFrame(l, ids[0], pays, o.Debt());
      FillCallDoes(l, ids[0], pays, o.Debt());
      var l1 := FillCall(l, ids[0], pays, o.Debt()).value.0;
      BurnedOnly(l, ids[0], pays, o.Debt(), l1);
      ListsTail(l, m, ids, l1);
      CloseCallsFrame(l1, m, ids[1..], p, gathered + pays.n);
    }
  }

  lemma BurnedOnly(l: Ledger, id: OrderId, pays: Amount, receives: Amount, r: Ledger)
    requires id in l.calls && CallFilled(l, id, pays, receives, r, true)
    ensures forall a :: a != receives.asset ==> Get(r.supply, a) == Get(l.supply, a)
  {}

  // ---- matches ----

  /** A match of a call order with a request at p: base units of the asset for quote units of its backing. */
  ghost predicate SettlementMatched(l: Ledger, assets: Assets, call: OrderId, id: OrderId, p: Price, max: int,
                                    r: Ledger, n: int)
    requires call in l.calls && id in l.settles && p.base.n > 0
  {
    var c, o := l.calls[call], l.settles[id];
    var paid := Amount(n * p.quote.n / p.base.n, c.Collateral().asset);
    var left := c.(debt := c.debt - n, collateral := c.collateral - paid.n);
    && n <= o.balance.n && n <= max && n <= c.debt && (n == o.balance.n || n == max || n == c.debt)
    && paid.n < c.collateral
    && Paid(l, r, (if n == c.debt then [Payment(c.borrower, left.Collateral())] else [])
                  + [Payment(o.owner, AfterFee(assets, paid))])
    && r.calls == (if n == c.debt then l.calls - {call} else l.calls[call := left])
    && r.settles == (if n < o.balance.n then l.settles[id := o.(balance := Amount(o.balance.n - n, o.balance.asset))]
                     else l.settles - {id})
    && MarketFeeBooked(l.fees, assets, paid, r.fees)
    && (forall a :: Get(r.supply, a) == Get(l.supply, a) - if a == c.Debt().asset then n else 0)
    && r == l.(balances := r.balances, calls := r.calls, settles := r.settles, fees := r.fees, supply := r.supply)
  }

  lemma MatchSettleDoes(l: Ledger, assets: Assets, call: OrderId, id: OrderId, p: Price, max: int)
    requires call in l.calls && id in l.settles && p.base.n > 0 && p.base.asset == l.calls[call].Debt().asset
    requires MatchSettle(l, assets, call, id, p, max).Settled?
    ensures var m := MatchSettle(l, assets, call, id, p, max); SettlementMatched(l, assets, call, id, p, max, m.l, m.n)
  {
    hide FillCall, FillSettle, Paid, AfterFee, CallFilled, RequestFilled;
    var c, o := l.calls[call], l.settles[id];
    var terms := SettleTerms(c, o, p, max);
    FillCallFrame(l, call, terms.price, terms.units);
    FillCallDoes(l, call, terms.price, terms.units);
    var (l1, done) := FillCall(l, call, terms.price, terms.units).value;
    FillSettleDoes(l1, assets, id, terms.units, terms.price);
    var r := FillSettle(l1, assets, id, terms.units, terms.price).0;
    TwoFills(l, assets, call, id, terms.price, terms.units, l1, done, r);
  }

  lemma TwoFills(l: Ledger, assets: Assets, call: OrderId, id: OrderId, price: Amount, units: Amount, l1: Ledger,
                 done: bool,
                 r: Ledger)
    requires call in l.calls && id in l.settles && l1.settles == l.settles
    requires CallFilled(l, call, price, units, l1, done) && RequestFilled(l1, assets, id, units, price, r)
    ensures var c, o := l.calls[call], l.settles[id];
      var left := c.(debt := c.debt - units.n, collateral := c.collateral - price.n);
      && Paid(l, r, (if units.n == c.debt then [Payment(c.borrower, left.Collateral())] else [])
                    + [Payment(o.owner, AfterFee(assets, price))])
      && r.calls == (if units.n == c.debt then l.calls - {call} else l.calls[call := left])
      && r.settles == (if units.n < o.balance.n
                       then l.settles[id := o.(balance := Amount(o.balance.n - units.n, o.balance.asset))]
                       else l.settles - {id})
      && MarketFeeBooked(l.fees, assets, price, r.fees)
      && (forall a :: Get(r.supply, a) == Get(l.supply, a) - if a == units.asset then units.n else 0)
      && r == l.(balances := r.balances, calls := r.calls, settles := r.settles, fees := r.fees, supply := r.supply)
  {
    hide Paid, AfterFee, Get;
    var c, o := l.calls[call], l.settles[id];
    var left := c.(debt := c.debt - units.n, collateral := c.collateral - price.n);
    PaidTrans(l, l1, r, if done then [Payment(c.borrower, left.Collateral())] else [],
              [Payment(o.owner, AfterFee(assets, price))]);
  }

  /** One margin call: the bid's price, rounded down, for as much as both orders allow. */
  ghost predicate Called(l: Ledger, assets: Assets, call: OrderId, bid: OrderId, r: Ledger, callDone: bool,
                         bidDone: bool)
    requires call in l.calls && bid in l.limits && l.limits[bid].sellPrice.base.n > 0
  {
    var c, o := l.calls[call], l.limits[bid];
    var n := if c.debt <= o.forSale then c.debt else o.forSale;
    var paid := Amount(n * o.sellPrice.quote.n / o.sellPrice.base.n, c.Collateral().asset);
    exists l1 :: CallFilled(l, call, paid, Amount(n, c.Debt().asset), l1, callDone)
                 && LimitFilled(l1, assets, bid, Amount(n, c.Debt().asset), paid, true, r, bidDone)
  }

  lemma MarginCallDoes(l: Ledger, assets: Assets, call: OrderId, bid: OrderId)
    requires Sane(l) && call in l.calls && bid in l.limits && MarginCall(l, assets, call, bid).Some?
    requires l.limits[bid].sellPrice.base.asset == l.calls[call].Debt().asset
    ensures l.limits[bid].sellPrice.base.n > 0
    ensures var (r, callDone, bidDone) := MarginCall(l, assets, call, bid).value;
      Called(l, assets, call, bid, r, callDone, bidDone)
  {
    hide FillCall, FillLimit, CallFilled, LimitFilled, Sane;
    var c, o := l.calls[call], l.limits[bid];
    SaneOrders(l, bid, bid);
    var units := Amount(Min(c.debt, o.forSale), c.Debt().asset);
    var price := Times(units, o.sellPrice).value;
    FillCallFrame(l, call, price, units);
    FillCallDoes(l, call, price, units);
    var (l1, callDone) := FillCall(l, call, price, units).value;
    FillLimitDoes(l1, assets, bid, units, price, true);
  }

  /** A match of two limit orders: two fills that exchange what MatchIsFair says. */
  lemma MatchLimitsDoes(l: Ledger, assets: Assets, usd: OrderId, core: OrderId, p: Price)
    requires Sane(l) && Opposed(l, usd, core, p) && MatchLimits(l, assets, usd, core, p).Some?
    ensures var (usdPays, corePays) :=
        MatchAmounts(l.limits[usd].AmountForSale(), l.limits[core].AmountForSale(), p).value;
      var (r, usdDone, coreDone) := MatchLimits(l, assets, usd, core, p).value;
      exists l1 :: LimitFilled(l, assets, usd, usdPays, corePays, false, l1, usdDone)
                   && core in l1.limits && l1.limits[core] == l.limits[core]
                   && LimitFilled(l1, assets, core, corePays, usdPays, true, r, coreDone)
  {
    hide FillLimit, LimitFilled, Sane, MatchAmounts;
    SaneOrders(l, usd, core);
    var (usdPays, corePays) := MatchAmounts(l.limits[usd].AmountForSale(), l.limits[core].AmountForSale(), p).value;
    var (l1, usdDone) := FillLimit(l, assets, usd, usdPays, corePays, false).value;
    FillLimitFrame(l, assets, usd, usdPays, corePays, false);
    FillLimitDoes(l, assets, usd, usdPays, corePays, false);
    FillLimitDoes(l1, assets, core, corePays, usdPays, true);
  }

  // ---- asset_settle ----

  /** A redemption pays the fund's share of the units, rounded down, and burns them. */
  lemma RedeemDoes(l: Ledger, who: Account, x: Amount, id: OrderId, date: nat)
    requires Invariant(l) && id !in l.settles && x.asset in l.bits && l.bits[x.asset].settlement.Some?
    requires Settle(l, who, x, id, date).Some?
    ensures var b, r := l.bits[x.asset], Settle(l, who, x, id, date).value;
      var paid := Amount(x.n * b.settlement.value.quote.n / b.settlement.value.base.n, b.backing);
      && b.settlement.value.base.n > 0
      && Paid(l, r, [Payment(who, Amount(-x.n, x.asset)), Payment(who, paid)])
      && r.bits == l.bits[x.asset := b.(fund := b.fund - paid.n)]
      && (forall a :: Get(r.supply, a) == Get(l.supply, a) - if a == x.asset then x.n else 0)
      && r == l.(balances := r.balances, bits := r.bits, supply := r.supply)
  {
    hide Sane, Covered, Paid, Settle;
    RedeemValue(l, who, x, id, date);
    SaneBitOf(l, x.asset);
    var b := l.bits[x.asset];
    var paid := Times(x, b.settlement.value).value;
    var taken := Credit(l, who, Amount(-x.n, x.asset));
    var drawn := PutBit(taken, x.asset, b.(fund := b.fund - paid.n));
    var given := Credit(drawn, who, paid);
    CreditPays(l, who, Amount(-x.n, x.asset));
    CreditPays(drawn, who, paid);
    var p, q := Payment(who, Amount(-x.n, x.asset)), Payment(who, paid);
    SameBalances(l, taken, l, drawn, [p]);
    PaidTrans(l, drawn, given, [p], [q]);
    assert [p] + [q] == [p, q];
    SameBalances(l, given, l, Settle(l, who, x, id, date).value, [p, q]);
  }

  /** A request takes the units and waits under its date. */
  lemma RequestDoes(l: Ledger, who: Account, x: Amount, id: OrderId, date: nat)
    requires id !in l.settles && x.asset in l.bits && l.bits[x.asset].settlement.None?
    requires Settle(l, who, x, id, date).Some?
    ensures var r := Settle(l, who, x, id, date).value;
      && Paid(l, r, [Payment(who, Amount(-x.n, x.asset))])
      && r == l.(balances := r.balances, settles := l.settles[id := SettleOrder(who, x, date)])
  {
    hide Adjust, Paid, MaySettle;
    CreditPays(l, who, Amount(-x.n, x.asset));
    SameBalances(l, Credit(l, who, Amount(-x.n, x.asset)), l, Settle(l, who, x, id, date).value,
                 [Payment(who, Amount(-x.n, x.asset))]);
  }

  // ---- when a global settlement goes through ----

  /** The debt of the order has a worth at p, in its collateral's asset and within the cap on products. */
  predicate Worthy(o: CallOrder, p: Price) {
    && (if p.base.asset == o.Debt().asset then p.base.n > 0 && p.quote.asset == o.Collateral().asset
        else p.quote.asset == o.Debt().asset && p.quote.n > 0 && p.base.asset == o.Collateral().asset)
    && DebtWorth(o, p) <= MAX_SHARE_SUPPLY
  }

  /** The asset is not settled yet, and every debt in it has a worth. */
  ghost predicate Closable(l: Ledger, m: AssetId, p: Price)
    requires m in l.bits
  {
    l.bits[m].settlement.None? && forall c <- l.calls :: l.calls[c].Debt().asset == m ==> Worthy(l.calls[c], p)
  }

  lemma WorthyIff(o: CallOrder, p: Price)
    ensures Worthy(o, p) <==> Times(o.Debt(), p).Some? && Times(o.Debt(), p).value.asset == o.Collateral().asset
  {}

  lemma {:induction false} CloseCallsIff(l: Ledger, m: AssetId, ids: seq<OrderId>, p: Price, gathered: int)
    requires Sane(l) && Lists(l, m, ids) && SanePrice(p)
    ensures CloseCalls(l, ids, p, gathered).Some? <==>
      forall c <- l.calls :: l.calls[c].Debt().asset == m ==> Worthy(l.calls[c], p)
    decreases |ids|
  {
    hide FillCall, Times, Sane, Worthy;
    if ids != [] {
      var o := l.calls[ids[0]];
      WorthyIff(o, p);
      if Worthy(o, p) {
        SaneCallOrder(l, ids[0]);
        TimesNonNegative(o.Debt(), p);
        var worth := Times(o.Debt(), p).value;
        var pays := Amount(Min(worth.n, o.collateral), worth.asset);
        FillCallGoes(l, ids[0], pays, o.Debt());
        FillCallFrame(l, ids[0], pays, o.Debt());
        FillCallSane(l, ids[0], pays, o.Debt());
        var l1 := FillCall(l, ids[0], pays, o.Debt()).value.0;
        ListsTail(l, m, ids, l1);
        CloseCallsIff(l1, m, ids[1..], p, gathered + pays.n);
      }
    }
  }

  lemma FillCallGoes(l: Ledger, id: OrderId, pays: Amount, receives: Amount)
    requires id in l.calls && receives == l.calls[id].Debt() && pays.asset == l.calls[id].Collateral().asset
    requires pays.n <= l.calls[id].collateral
    ensures FillCall(l, id, pays, receives).Some?
  {
    hide Adjust;
  }

  lemma GlobalSettleIff(l: Ledger, m: AssetId, p: Price, ids: seq<OrderId>)
    requires Invariant(l) && m in l.bits && Lists(l, m, ids) && SanePrice(p)
    ensures GlobalSettle(l, m, p, ids).Some? <==> Closable(l, m, p)
  {
    hide CloseCalls, Sane, Worthy, Lists, Covered;
    SaneBitOf(l, m);
    CloseCallsIff(l, m, ids, p, 0);
  }
}
