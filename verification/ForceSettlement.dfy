/**
 * The bookkeeping of the force-settlement loops of clear_expired_orders: caps, progress, and what is left to serve.
 */
module ForceSettlement {
  import opened Wrappers
  import opened MapSum
  import opened Ledger
  import opened MarketSpec
  import opened Floors
  import opened MarketLaws
  import opened MarketRun
  import opened BlackSwan
  import Arith

  /** max_force_settlement_volume. */
  function MaxVolume(b: Bitasset, supply: int): int {
    if b.volumePercent == 0 then 0
    else if b.volumePercent == FULL_PERCENT then supply + b.settledVolume
    else (supply + b.settledVolume) * b.volumePercent / FULL_PERCENT
  }

  lemma MaxVolumeWithin(b: Bitasset, supply: int)
    requires supply >= 0 && b.settledVolume >= 0 && b.volumePercent <= FULL_PERCENT
    ensures 0 <= MaxVolume(b, supply) <= supply + b.settledVolume
  {
    var n := supply + b.settledVolume;
    FloorMono(b.volumePercent, FULL_PERCENT, n, FULL_PERCENT);
    FloorNonNegative(n, b.volumePercent, FULL_PERCENT);
    assert n * b.volumePercent == b.volumePercent * n && FULL_PERCENT * n / FULL_PERCENT == n;
  }

  /** While m has supply and is not settled, somebody owes it. */
  lemma DebtorExists(l: Ledger, m: AssetId) returns (call: OrderId)
    requires Invariant(l) && m in l.bits && l.bits[m].settlement.None? && Get(l.supply, m) > 0
    ensures call in l.calls && l.calls[call].Debt().asset == m
  {
    assert Covered(l, m);
    if forall id <- l.calls :: l.calls[id].Debt().asset != m {
      SumZero(l.calls, DebtIn(m));
      assert false;
    }
    call :| call in l.calls && l.calls[call].Debt().asset == m;
  }

  /** From l0 to l one force settlement of m has used up volume to `settled`, and touched no other request. */
  ghost predicate Processed(l0: Ledger, l: Ledger, m: AssetId, id: OrderId, settled: int, cap: int)
    requires m in l0.bits
  {
    && Invariant(l) && Conserves(l0, l) && l.bits == l0.bits && l.settles - {id} == l0.settles - {id}
    && l0.bits[m].settledVolume <= settled <= cap
    && (forall a :: Get(l.supply, a) == Get(l0.supply, a) - (if a == m then settled - l0.bits[m].settledVolume else 0))
  }

  lemma ProcessedStart(l: Ledger, m: AssetId, id: OrderId, cap: int)
    requires Invariant(l) && m in l.bits && l.bits[m].settledVolume <= cap
    ensures Processed(l, l, m, id, l.bits[m].settledVolume, cap)
  {}

  lemma ProcessedHolds(l0: Ledger, l: Ledger, m: AssetId, id: OrderId, settled: int, cap: int)
    requires m in l0.bits && Processed(l0, l, m, id, settled, cap)
    ensures Invariant(l) && l.bits == l0.bits && settled <= cap
    ensures Get(l.supply, m) == Get(l0.supply, m) - settled + l0.bits[m].settledVolume
  {
    hide Invariant, Conserves;
  }

  lemma ProcessedCancel(l0: Ledger, l: Ledger, m: AssetId, id: OrderId, settled: int, cap: int)
    requires m in l0.bits && Processed(l0, l, m, id, settled, cap) && id in l.settles
    ensures Processed(l0, CancelSettle(l, id), m, id, settled, cap)
  {
    hide Invariant, Conserves, Adjust, Get;
    SettleCancelKeeps(l, id);
    ConservesTrans(l0, l, CancelSettle(l, id));
    assert l.settles - {id} - {id} == l.settles - {id};
  }

  lemma ProcessedTrade(l0: Ledger, l: Ledger, r: Ledger, m: AssetId, id: OrderId, settled: int, traded: int, cap: int)
    requires m in l0.bits && Processed(l0, l, m, id, settled, cap) && 0 <= traded <= cap - settled
    requires Invariant(r) && Conserves(l, r) && r.bits == l.bits && r.settles - {id} == l.settles - {id}
    requires forall a :: Get(r.supply, a) == Get(l.supply, a) - if a == m then traded else 0
    ensures Processed(l0, r, m, id, settled + traded, cap)
  {
    hide Invariant, Conserves, Get;
    ConservesTrans(l0, l, r);
  }

  /** A force settlement of m with its volume written back. */
  ghost predicate Advances(l0: Ledger, l: Ledger, m: AssetId, id: OrderId, cap: int)
    requires m in l0.bits
  {
    && m in l.bits && l.bits == l0.bits[m := l0.bits[m].(settledVolume := l.bits[m].settledVolume)]
    && l0.bits[m].settledVolume <= l.bits[m].settledVolume <= cap
    && (forall a :: Get(l.supply, a) == Get(l0.supply, a)
          - (if a == m then l.bits[m].settledVolume - l0.bits[m].settledVolume else 0))
    && l.settles - {id} == l0.settles - {id} && (id !in l.settles || l.bits[m].settledVolume == cap)
    && (id in l.settles ==> l.settles[id].balance.asset == m)
  }

  // ---- when a settlement throws ----

  /** Every call order of m has collateral left. */
  predicate AllBacked(l: Ledger, m: AssetId) {
    forall c <- l.calls :: IsCall(l, m, c) ==> l.calls[c].collateral > 0
  }

  /**
   * The worth of the request is within the cap on products, and it is empty or every call order has collateral
   * left.
   */
  predicate Settleable(l: Ledger, m: AssetId, id: OrderId) {
    && m in l.bits && l.bits[m].feed.Some? && id in l.settles
    && Times(l.settles[id].balance, l.bits[m].feed.value).Some? && (l.settles[id].balance.n == 0 || AllBacked(l, m))
  }

  /** p is the settlement price of a request for m with this much or more. */
  predicate Quotes(l: Ledger, m: AssetId, n: int, p: Price) {
    && m in l.bits && p.base.asset == m && p.quote.asset == l.bits[m].backing
    && n <= p.base.n && 0 <= p.quote.n <= MAX_SHARE_SUPPLY
  }

  lemma QuotesLess(l0: Ledger, l: Ledger, m: AssetId, n0: int, n: int, p: Price)
    requires Quotes(l0, m, n0, p) && n <= n0 && l.bits == l0.bits
    ensures Quotes(l, m, n, p)
  {}

  lemma ConservesSame(l: Ledger)
    ensures Conserves(l, l)
  {}

  /** If any call order is without collateral, the poorest is. */
  lemma PoorestIsBare(l: Ledger, m: AssetId, c: OrderId)
    requires Sane(l) && IsPoorest(l, m, c)
    ensures AllBacked(l, m) <==> l.calls[c].collateral > 0
  {
    hide Sane;
    SaneCallOrder(l, c);
    forall d <- l.calls | IsCall(l, m, d) ensures l.calls[c].collateral > 0 ==> l.calls[d].collateral > 0 {
      SaneCallOrder(l, d);
      if l.calls[c].collateral > 0 {
        Arith.MulMono(1, l.calls[c].collateral, l.calls[d].debt);
      }
    }
  }

  /** A part of a quoted amount is worth at most the quote, so the cap on products holds. */
  lemma PartFits(n: int, p: Price)
    requires 0 <= n <= p.base.n && p.base.n > 0 && 0 <= p.quote.n <= MAX_SHARE_SUPPLY
    ensures Times(Amount(n, p.base.asset), p).Some?
  {
    FloorMono(n, p.base.n, p.quote.n, p.base.n);
    FloorOf(p.base.n, p.quote.n, p.base.n);
    LessByFactor(p.base.n * p.quote.n / p.base.n, p.quote.n, p.base.n);
  }

  /** A match with a request that is not empty throws exactly when the call order has no collateral. */
  lemma MatchThrowsIff(l: Ledger, assets: Assets, m: AssetId, call: OrderId, settle: OrderId, p: Price, max: int)
    requires Sane(l) && IsCall(l, m, call) && settle in l.settles && l.settles[settle].balance.asset == m && max > 0
    requires l.settles[settle].balance.n > 0 && Quotes(l, m, l.settles[settle].balance.n, p)
    ensures MatchSettle(l, assets, call, settle, p, max).Failed? <==> l.calls[call].collateral == 0
  {
    hide Sane, Times, FillSettle;
    SaneCallOrder(l, call);
    var c, o := l.calls[call], l.settles[settle];
    PartFits(Min(Min(o.balance.n, max), c.debt), p);
    QuotedAsset(Amount(Min(Min(o.balance.n, max), c.debt), m), p);
  }

  lemma QuotedAsset(x: Amount, p: Price)
    requires x.asset == p.base.asset && Times(x, p).Some?
    ensures Times(x, p).value.asset == p.quote.asset
  {}

  lemma FillCallCalls(l: Ledger, call: OrderId, pays: Amount, receives: Amount)
    requires call in l.calls && FillCall(l, call, pays, receives).Some?
    ensures var o, r := l.calls[call], FillCall(l, call, pays, receives).value.0;
      var left := o.(debt := o.debt - receives.n, collateral := o.collateral - pays.n);
      r.calls == if left.debt == 0 then l.calls - {call} else l.calls[call := left]
  {
    hide Adjust;
  }

  lemma PayOutRecords(l: Ledger, assets: Assets, who: Account, x: Amount)
    ensures PayOut(l, assets, who, x).calls == l.calls && PayOut(l, assets, who, x).settles == l.settles
  {
    hide Adjust, MarketFee, Options;
  }

  lemma FillSettleCalls(l: Ledger, assets: Assets, id: OrderId, pays: Amount, receives: Amount)
    requires id in l.settles
    ensures var r := FillSettle(l, assets, id, pays, receives).0;
      r.calls == l.calls && (id in r.settles ==> r.settles[id].balance.n <= l.settles[id].balance.n || pays.n < 0)
  {
    hide PayOut;
    PayOutRecords(l, assets, l.settles[id].owner, receives);
  }

  /** From l0 to l requests only shrink, feeds stay, and call orders keep some collateral if they had any. */
  ghost predicate Eases(l0: Ledger, l: Ledger) {
    && (forall c <- l.calls :: c in l0.calls && l.calls[c].callPrice == l0.calls[c].callPrice
                               && (l0.calls[c].collateral > 0 ==> l.calls[c].collateral > 0))
    && (forall id <- l.settles :: id in l0.settles && l.settles[id].balance.asset == l0.settles[id].balance.asset
                                  && l.settles[id].balance.n <= l0.settles[id].balance.n)
    && l.bits.Keys == l0.bits.Keys && forall m <- l.bits :: l.bits[m].feed == l0.bits[m].feed
  }

  lemma EasesSame(l: Ledger)
    ensures Eases(l, l)
  {}

  lemma EasesRequest(l0: Ledger, l: Ledger, id: OrderId)
    requires Eases(l0, l) && id in l.settles
    ensures id in l0.settles && l.settles[id].balance.n <= l0.settles[id].balance.n
  {}

  lemma EasesTrans(l0: Ledger, l1: Ledger, l2: Ledger)
    requires Eases(l0, l1) && Eases(l1, l2)
    ensures Eases(l0, l2)
  {}

  lemma EasesBacked(l0: Ledger, l: Ledger, m: AssetId)
    requires Eases(l0, l) && AllBacked(l0, m)
    ensures AllBacked(l, m)
  {}

  /** No request is worth too much at its feed, and every call order has collateral. */
  predicate Untroubled(l: Ledger) {
    && (forall c <- l.calls :: l.calls[c].collateral > 0)
    && forall id <- l.settles :: var x := l.settles[id].balance;
         x.asset in l.bits && l.bits[x.asset].feed.Some? ==> Times(x, l.bits[x.asset].feed.value).Some?
  }

  lemma SmallerFits(x: Amount, y: Amount, p: Price)
    requires x.asset == y.asset == p.base.asset && x.n <= y.n && p.base.n > 0 && p.quote.n >= 0 && Times(y, p).Some?
    ensures Times(x, p).Some?
  {
    FloorMono(x.n, y.n, p.quote.n, p.base.n);
  }

  lemma EasesUntroubled(l0: Ledger, l: Ledger)
    requires Sane(l) && Eases(l0, l) && Untroubled(l0)
    ensures Untroubled(l)
  {
    hide Sane, Times;
    forall id <- l.settles | var x := l.settles[id].balance; x.asset in l.bits && l.bits[x.asset].feed.Some?
      ensures var x := l.settles[id].balance; Times(x, l.bits[x.asset].feed.value).Some?
    {
      var x := l.settles[id].balance;
      SaneBitOf(l, x.asset);
      SmallerFits(x, l0.settles[id].balance, l.bits[x.asset].feed.value);
    }
  }

  lemma UntroubledSettles(l: Ledger, m: AssetId, id: OrderId)
    requires Untroubled(l) && m in l.bits && l.bits[m].feed.Some? && id in l.settles && l.settles[id].balance.asset == m
    ensures Settleable(l, m, id)
  {
    hide Times;
  }

  lemma CancelEases(l: Ledger, id: OrderId)
    requires id in l.settles
    ensures Eases(l, CancelSettle(l, id))
  {
    hide Adjust;
  }

  lemma VolumeEases(l: Ledger, m: AssetId, n: int)
    requires m in l.bits
    ensures Eases(l, PutBit(l, m, l.bits[m].(settledVolume := n)))
  {}

  lemma MatchUnits(c: CallOrder, o: SettleOrder, p: Price, max: int)
    requires max > 0 && SettleTerms(c, o, p, max).Terms?
    ensures var t := SettleTerms(c, o, p, max); t.units.n > 0 && t.price.n < c.collateral
  {
    hide Times;
  }

  /** A match leaves collateral in the call order, unless the order is gone. */
  lemma MatchEases(l: Ledger, assets: Assets, call: OrderId, settle: OrderId, p: Price, max: int)
    requires call in l.calls && settle in l.settles && MatchSettle(l, assets, call, settle, p, max).Settled? && max > 0
    ensures Eases(l, MatchSettle(l, assets, call, settle, p, max).l)
  {
    hide Times, FillCall, FillSettle, SettleTerms;
    var terms := SettleTerms(l.calls[call], l.settles[settle], p, max);
    MatchUnits(l.calls[call], l.settles[settle], p, max);
    FillCallFrame(l, call, terms.price, terms.units);
    FillCallCalls(l, call, terms.price, terms.units);
    var l1 := FillCall(l, call, terms.price, terms.units).value.0;
    FillSettleCalls(l1, assets, settle, terms.units, terms.price);
    FillSettleFrame(l1, assets, settle, terms.units, terms.price);
    MatchSettleFrame(l, assets, call, settle, p, max);
    OneShrinks(l, FillSettle(l1, assets, settle, terms.units, terms.price).0, settle);
  }

  lemma OneShrinks(l: Ledger, r: Ledger, id: OrderId)
    requires r.settles - {id} == l.settles - {id} && id in l.settles
    requires id in r.settles ==> r.settles[id].balance.asset == l.settles[id].balance.asset
    requires id in r.settles ==> r.settles[id].balance.n <= l.settles[id].balance.n
    ensures forall x <- r.settles :: x in l.settles && r.settles[x].balance.asset == l.settles[x].balance.asset
    ensures forall x <- r.settles :: x in l.settles && r.settles[x].balance.n <= l.settles[x].balance.n
  {
    forall x <- r.settles | x != id ensures x in l.settles && r.settles[x] == l.settles[x] {
      assert x in r.settles - {id} && (r.settles - {id})[x] == (l.settles - {id})[x];
    }
  }

  lemma PoorestThere(l: Ledger, m: AssetId, c: OrderId)
    requires Sane(l) && IsPoorest(l, m, c)
    ensures IsCall(l, m, c) && l.calls[c].collateral >= 0 && (AllBacked(l, m) <==> l.calls[c].collateral > 0)
  {
    SaneCallOrder(l, c);
    PoorestIsBare(l, m, c);
  }

  /** What the offset leaves of the feed's worth is within the cap, in the backing asset. */
  lemma OffsetFits(pays: Amount, feed: Price, offset: nat)
    requires pays.n >= 0 && pays.asset == feed.base.asset && feed.base.n > 0 && feed.quote.n >= 0
    requires offset <= FULL_PERCENT
    requires Times(pays, feed).Some?
    ensures var worth := Times(pays, feed).value;
      && worth.asset == feed.quote.asset && 0 <= worth.n * (FULL_PERCENT - offset) / FULL_PERCENT <= MAX_SHARE_SUPPLY
  {
    FloorNonNegative(pays.n, feed.quote.n, feed.base.n);
    var n := Times(pays, feed).value.n;
    FloorNonNegative(n, FULL_PERCENT - offset, FULL_PERCENT);
    FloorMono(FULL_PERCENT - offset, FULL_PERCENT, n, FULL_PERCENT);
    assert n * (FULL_PERCENT - offset) == (FULL_PERCENT - offset) * n && FULL_PERCENT * n / FULL_PERCENT == n;
  }

  /**
   * A feed of 11 units for 1, an order of debt 10 and collateral 1, a bid of 9 units for 1, and a request for 1
   * unit.
   */
  function Thin(): Ledger {
    Ledger(map[], map[2 := LimitOrder(6, 9, Price(Amount(9, 1), Amount(1, 0)), 0)],
           map[1 := CallOrder(5, 1, 10, Price(Amount(1, 0), Amount(17, 1)))], map[3 := SettleOrder(7, Amount(1, 1), 0)],
           map[1 := 10], map[], map[],
           map[1 := Bitasset(0, false, true, Some(Price(Amount(11, 1), Amount(1, 0))), 0, FULL_PERCENT, 0, None, 0)])
  }

  lemma ThinInvariant()
    ensures Invariant(Thin())
  {
    hide Sum;
    var l := Thin();
    SumZero(l.balances, BalanceIn(1));
    SumRemove(l.limits, LimitIn(1), 2);
    SumZero(l.limits - {2}, LimitIn(1));
    SumZero(l.calls, CollateralIn(1));
    SumRemove(l.settles, SettleIn(1), 3);
    SumZero(l.settles - {3}, SettleIn(1));
    SumZero(l.bits, FundIn(1));
    SumZero(l.pending, PendingIn(1));
    SumRemove(l.calls, DebtIn(1), 1);
    SumZero(l.calls - {1}, DebtIn(1));
    assert Covered(l, 1);
  }

  lemma ThinFill()
    ensures var r := FillCall(Thin(), 1, Amount(1, 0), Amount(9, 1));
      && r.Some? && !r.value.1 && r.value.0.calls == map[1 := CallOrder(5, 0, 1, Price(Amount(1, 0), Amount(17, 1)))]
      && r.value.0.limits == Thin().limits && r.value.0.settles == Thin().settles && r.value.0.bits == Thin().bits
  {
    hide Adjust;
  }

  lemma ThinBid(l: Ledger)
    requires l.limits == Thin().limits
    ensures var r := FillLimit(l, map[], 2, Amount(9, 1), Amount(1, 0), true);
      r.Some? && r.value.0.calls == l.calls && r.value.0.settles == l.settles && r.value.0.bits == l.bits
  {
    hide Adjust;
  }

  /**
   * The input: rounding lets a margin call take all collateral and leave debt. As long as the order stays so,
   * settling the
   * request throws.
   */
  lemma BareCallExists() returns (r: Ledger)
    ensures Invariant(Thin()) && MarginCall(Thin(), map[], 1, 2).Some? && r == MarginCall(Thin(), map[], 1, 2).value.0
    ensures Invariant(r) && 1 in r.calls && r.calls[1].debt == 1 && r.calls[1].collateral == 0 && !Settleable(r, 1, 3)
  {
    hide FillCall, FillLimit, Invariant, Sane;
    ThinInvariant();
    ThinFill();
    ThinBid(FillCall(Thin(), 1, Amount(1, 0), Amount(9, 1)).value.0);
    r := MarginCall(Thin(), map[], 1, 2).value.0;
    MarginCallKeeps(Thin(), map[], 1, 2);
  }

  /** The cap of m, computed afresh. */
  function Cap(l: Ledger, m: AssetId): int
    requires m in l.bits
  {
    MaxVolume(l.bits[m], Get(l.supply, m))
  }

  /** Between l0 and l only force settlements happened to the market-issued assets, each within its cap. */
  ghost predicate WithinCaps(l0: Ledger, l: Ledger) {
    && l.bits.Keys == l0.bits.Keys
    && (forall m <- l0.bits ::
          && l.bits[m] == l0.bits[m].(settledVolume := l.bits[m].settledVolume)
          && Get(l.supply, m) + l.bits[m].settledVolume == Get(l0.supply, m) + l0.bits[m].settledVolume
          && l0.bits[m].settledVolume <= l.bits[m].settledVolume
          && (l.bits[m].settledVolume == l0.bits[m].settledVolume || l.bits[m].settledVolume <= Cap(l0, m)))
    && (forall a :: a !in l0.bits ==> Get(l.supply, a) == Get(l0.supply, a))
  }

  /** A cap that was computed earlier is the cap computed now. */
  lemma CapStays(l0: Ledger, l: Ledger, m: AssetId)
    requires m in l0.bits && WithinCaps(l0, l)
    ensures Cap(l, m) == Cap(l0, m)
  {}

  lemma WithinCapsStep(l0: Ledger, l1: Ledger, l2: Ledger, m: AssetId, id: OrderId)
    requires m in l1.bits && WithinCaps(l0, l1) && Advances(l1, l2, m, id, Cap(l1, m))
    ensures WithinCaps(l0, l2)
  {
    CapStays(l0, l1, m);
  }

  lemma WithinCapsSame(l0: Ledger, l1: Ledger, l2: Ledger)
    requires WithinCaps(l0, l1) && l2.bits == l1.bits && l2.supply == l1.supply
    ensures WithinCaps(l0, l2)
  {}

  /** The order of the settlement index: asset, then date, then id. */
  predicate Precedes(o: SettleOrder, id: OrderId, o': SettleOrder, id': OrderId) {
    o.balance.asset < o'.balance.asset
    || (o.balance.asset == o'.balance.asset && (o.date < o'.date || (o.date == o'.date && id <= id')))
  }

  /** Nothing more is due on this request: it is not expired, or its asset has used up its volume. */
  ghost predicate Served(l: Ledger, id: OrderId, now: nat)
    requires id in l.settles
  {
    var o := l.settles[id];
    && o.balance.asset in l.bits && l.bits[o.balance.asset].settlement.None?
    && (o.date > now || l.bits[o.balance.asset].settledVolume >= Cap(l, o.balance.asset))
  }

  ghost predicate ServedBelow(l: Ledger, bound: AssetId, now: nat) {
    forall id <- l.settles :: l.settles[id].balance.asset < bound ==> Served(l, id, now)
  }

  function Ahead(settles: map<OrderId, SettleOrder>, bound: AssetId): set<OrderId> {
    set id <- settles | settles[id].balance.asset >= bound
  }

  lemma AheadShrinks(settles: map<OrderId, SettleOrder>, bound: AssetId, settles': map<OrderId, SettleOrder>,
                     bound': AssetId, id: OrderId)
    requires id in Ahead(settles, bound) && id !in Ahead(settles', bound') && bound <= bound'
    requires settles' - {id} == settles - {id}
    ensures |Ahead(settles', bound')| < |Ahead(settles, bound)|
  {
    var big, small := Ahead(settles, bound), Ahead(settles', bound');
    forall x <- small ensures x in big {
      assert x != id && x in settles' - {id};
    }
    SmallerSet(small, big, id);
  }

  lemma SmallerSet<T>(small: set<T>, big: set<T>, x: T)
    requires small <= big && x in big && x !in small
    ensures |small| < |big|
  {
    assert big == small + (big - small) && x in big - small;
  }

  /** What the outer loop of clear_expired_orders carries from one request to the next. */
  datatype Cursor = Cursor(current: AssetId, capAsset: AssetId, cap: int)

  ghost predicate Scanning(start: Ledger, l: Ledger, c: Cursor, capped: set<AssetId>, now: nat) {
    && Invariant(l) && Conserves(start, l) && WithinCaps(start, l) && ServedBelow(l, c.current, now)
    && (c.capAsset == CORE || (c.capAsset in l.bits && c.cap == Cap(l, c.capAsset)))
    && capped <= l.bits.Keys && (forall m <- capped :: l.bits[m].settledVolume >= Cap(l, m))
  }

  lemma ScanningStart(l: Ledger, now: nat)
    requires Invariant(l)
    ensures Scanning(l, l, Cursor(0, CORE, 0), {}, now)
  {
    hide Invariant, Served;
    WithinCapsStart(l);
  }

  lemma ScanningFirst(l: Ledger, m: AssetId, now: nat)
    requires Invariant(l) && forall id <- l.settles :: l.settles[id].balance.asset >= m
    ensures Scanning(l, l, Cursor(m, CORE, 0), {}, now)
  {
    hide Invariant, Served;
    WithinCapsStart(l);
  }

  lemma ScanningSane(start: Ledger, l: Ledger, c: Cursor, capped: set<AssetId>, now: nat)
    requires Scanning(start, l, c, capped, now)
    ensures Sane(l)
  {
    hide Conserves, WithinCaps, Served, Sane;
  }

  lemma ScanningDone(start: Ledger, l: Ledger, c: Cursor, capped: set<AssetId>, now: nat)
    requires Scanning(start, l, c, capped, now) && forall id <- l.settles :: l.settles[id].balance.asset < c.current
    ensures Invariant(l) && Conserves(start, l) && WithinCaps(start, l) && forall id <- l.settles :: Served(l, id, now)
  {
    hide Invariant, Conserves, WithinCaps, Served;
  }

  lemma ConservesTrans(l0: Ledger, l1: Ledger, l2: Ledger)
    requires Conserves(l0, l1) && Conserves(l1, l2)
    ensures Conserves(l0, l2)
  {
    hide Gap;
    forall a ensures Gap(l2, a) == Gap(l0, a) {
      assert Gap(l1, a) == Gap(l0, a);
    }
  }

  lemma ServedSame(l: Ledger, l': Ledger, bound: AssetId, id: OrderId, now: nat)
    requires ServedBelow(l, bound, now) && l'.bits == l.bits && l'.supply == l.supply && l'.settles == l.settles - {id}
    ensures ServedBelow(l', bound, now)
  {
    forall x <- l'.settles | l'.settles[x].balance.asset < bound ensures Served(l', x, now) {
      assert Served(l, x, now);
    }
  }

  lemma CapsAfter(l: Ledger, l': Ledger, m: AssetId, id: OrderId)
    requires m in l.bits && Advances(l, l', m, id, Cap(l, m))
    ensures forall x <- l.bits ::
      x in l'.bits && Cap(l', x) == Cap(l, x) && l'.bits[x].settledVolume >= l.bits[x].settledVolume
  {}

  lemma ServedAdvance(l: Ledger, l': Ledger, m: AssetId, id: OrderId, now: nat)
    requires m in l.bits && ServedBelow(l, m, now) && Advances(l, l', m, id, Cap(l, m))
    requires id in l.settles && l.settles[id].balance.asset == m
    requires (id in l'.settles ==> l'.settles[id].balance.asset == m)
    ensures ServedBelow(l', m, now)
  {
    hide MaxVolume;
    CapsAfter(l, l', m, id);
    forall x <- l'.settles | l'.settles[x].balance.asset < m ensures Served(l', x, now) {
      assert x in l'.settles - {id};
      assert x in l.settles - {id} && Served(l, x, now);
    }
  }

  lemma AheadSame(settles: map<OrderId, SettleOrder>, settles': map<OrderId, SettleOrder>, bound: AssetId, id: OrderId)
    requires settles' - {id} == settles - {id} && id in settles && id in settles'
    requires settles[id].balance.asset == settles'[id].balance.asset
    ensures Ahead(settles', bound) == Ahead(settles, bound)
  {
    forall x ensures x in Ahead(settles', bound) <==> x in Ahead(settles, bound) {
      if x != id {
        assert x in settles <==> x in settles - {id};
        assert x in settles' <==> x in settles' - {id};
      }
    }
  }

  predicate Closer(n': nat, k': nat, n: nat, k: nat) {
    n' < n || (n' == n && k' < k)
  }

  lemma WithinCapsStart(l: Ledger)
    ensures WithinCaps(l, l)
  {}

  /** The index gives the earliest request of an asset first. */
  lemma ServedLater(l: Ledger, m: AssetId, id: OrderId, now: nat)
    requires ServedBelow(l, m, now) && id in l.settles && l.settles[id].date > now && m in l.bits
    requires l.bits[m].settlement.None?
    requires forall x <- l.settles :: l.settles[x].balance.asset >= m ==> Precedes(l.settles[id], id, l.settles[x], x)
    requires l.settles[id].balance.asset == m
    ensures ServedBelow(l, m + 1, now)
  {
    hide MaxVolume;
  }

  lemma ServedCapped(l: Ledger, m: AssetId, now: nat)
    requires ServedBelow(l, m, now) && m in l.bits && l.bits[m].settlement.None? && l.bits[m].settledVolume >= Cap(l, m)
    ensures ServedBelow(l, m + 1, now)
  {
    hide MaxVolume;
  }

  lemma AheadPast(settles: map<OrderId, SettleOrder>, bound: AssetId, bound': AssetId, id: OrderId)
    requires id in settles && bound <= settles[id].balance.asset < bound'
    ensures |Ahead(settles, bound')| < |Ahead(settles, bound)|
  {
    SmallerSet(Ahead(settles, bound'), Ahead(settles, bound), id);
  }
}
