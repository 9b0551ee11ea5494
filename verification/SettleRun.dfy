/** What a force settlement pays: the price of a request, the trades that serve it, and the requests of a block. */
module SettleRun {
  import opened Wrappers
  import opened MapSum
  import opened Ledger
  import opened MarketSpec
  import opened Floors
  import opened MarketRun
  import opened BlackSwan
  import opened Payments
  import opened ForceSettlement
  import Arith

  /** What n units are offered for: their worth at the feed, rounded down, less the offset, rounded down. */
  function Offer(b: Bitasset, n: int): int
    requires b.feed.Some? && b.feed.value.base.n > 0
  {
    n * b.feed.value.quote.n / b.feed.value.base.n * (FULL_PERCENT - b.offsetPercent) / FULL_PERCENT
  }

  /** The settlement price of a request for n units of m. */
  function PriceOf(m: AssetId, b: Bitasset, n: int): Price
    requires b.feed.Some? && b.feed.value.base.n > 0
  {
    Price(Amount(n, m), Amount(Offer(b, n), b.backing))
  }

  datatype Deal = Deal(call: OrderId, units: int)

  function Units(ts: seq<Deal>): int {
    if ts == [] then 0 else Units(ts[..|ts| - 1]) + ts[|ts| - 1].units
  }

  /** A trade with the poorest call order, for at most `room` units. */
  ghost predicate TradeMade(b: Ledger, assets: Assets, m: AssetId, id: OrderId, p: Price, room: int, t: Deal,
                            b': Ledger) {
    && t.call in b.calls && id in b.settles && p.base.n > 0 && IsPoorest(b, m, t.call) && t.units > 0
    && b.calls[t.call].Collateral().asset == p.quote.asset
    && SettlementMatched(b, assets, t.call, id, p, room, b', t.units)
  }

  /** A request served by trades from l to r: ls are the ledgers before each trade and after the last. */
  ghost predicate Trades(l: Ledger, assets: Assets, m: AssetId, id: OrderId, p: Price, room: int,
                         ls: seq<Ledger>, ts: seq<Deal>, r: Ledger) {
    && |ls| == |ts| + 1 && ls[0] == l && ls[|ts|] == r
    && forall n :: 0 <= n < |ts| ==> TradeMade(ls[n], assets, m, id, p, room - Units(ts[..n]), ts[n], ls[n + 1])
  }

  /** A request that is cancelled gives its units back. */
  ghost predicate Refunded(b: Ledger, id: OrderId, r: Ledger) {
    && id in b.settles && Paid(b, r, [Payment(b.settles[id].owner, b.settles[id].balance)])
    && r == b.(balances := r.balances, settles := b.settles - {id})
  }

  /** The call order has too little for what it would trade. */
  predicate CannotPay(b: Ledger, c: OrderId, id: OrderId, p: Price, room: int) {
    && c in b.calls && id in b.settles && p.base.n > 0
    && var n := Min(Min(b.settles[id].balance.n, room), b.calls[c].debt);
    n * p.quote.n / p.base.n >= b.calls[c].collateral
  }

  /** How trading stops: nothing is left to trade, or the rest is cancelled, empty or beyond the poorest call order. */
  ghost predicate Stops(b: Ledger, m: AssetId, id: OrderId, p: Price, room: int, r: Ledger) {
    if id !in b.settles || room == 0 then r == b
    else Refunded(b, id, r) && (b.settles[id].balance.n == 0 || TooPoorToPay(b, m, id, p, room))
  }

  ghost predicate TooPoorToPay(b: Ledger, m: AssetId, id: OrderId, p: Price, room: int) {
    exists c :: IsPoorest(b, m, c) && CannotPay(b, c, id, p, room)
  }

  /** A request of m served up to the cap, with the volume written back. */
  ghost predicate RequestServed(l: Ledger, assets: Assets, m: AssetId, id: OrderId, cap: int, r: Ledger) {
    && m in l.bits && id in l.settles && l.bits[m].feed.Some? && l.bits[m].feed.value.base.n > 0
    && var p := PriceOf(m, l.bits[m], l.settles[id].balance.n);
    exists ls, ts, last, e :: ServedBy(l, assets, m, id, p, cap, ls, ts, last, e, r)
  }

  ghost predicate ServedBy(l: Ledger, assets: Assets, m: AssetId, id: OrderId, p: Price, cap: int,
                           ls: seq<Ledger>, ts: seq<Deal>, last: Ledger, e: Ledger, r: Ledger)
    requires m in l.bits
  {
    var b, room := l.bits[m], cap - l.bits[m].settledVolume;
    && Trades(l, assets, m, id, p, room, ls, ts, last) && Stops(last, m, id, p, room - Units(ts), e)
    && r == e.(bits := l.bits[m := b.(settledVolume := b.settledVolume + Units(ts))])
  }

  // ---- extending a trace ----

  lemma TradesStart(l: Ledger, assets: Assets, m: AssetId, id: OrderId, p: Price, room: int)
    ensures Trades(l, assets, m, id, p, room, [l], [], l)
  {}

  lemma UnitsSnoc(ts: seq<Deal>, t: Deal)
    ensures Units(ts + [t]) == Units(ts) + t.units
  {
    assert (ts + [t])[..|ts|] == ts;
  }

  lemma TradesNext(l: Ledger, assets: Assets, m: AssetId, id: OrderId, p: Price, room: int, ls: seq<Ledger>,
                   ts: seq<Deal>, last: Ledger, t: Deal, b: Ledger)
    requires Trades(l, assets, m, id, p, room, ls, ts, last)
    requires TradeMade(last, assets, m, id, p, room - Units(ts), t, b)
    ensures Trades(l, assets, m, id, p, room, ls + [b], ts + [t], b)
  {
    hide TradeMade, Units;
    var ls', ts' := ls + [b], ts + [t];
    forall n | 0 <= n < |ts'|
      ensures TradeMade(ls'[n], assets, m, id, p, room - Units(ts'[..n]), ts'[n], ls'[n + 1])
    {
      assert ts'[..n] == ts[..n];
      assert ts[..|ts|] == ts;
    }
  }

  lemma SwanCannotPay(b: Ledger, assets: Assets, m: AssetId, c: OrderId, id: OrderId, p: Price, room: int)
    requires c in b.calls && id in b.settles && p.base.n > 0 && p.base.asset == b.calls[c].Debt().asset
    requires MatchSettle(b, assets, c, id, p, room).BlackSwan?
    ensures CannotPay(b, c, id, p, room)
  {
    hide FillCall, FillSettle;
  }

  lemma CancelRefunds(b: Ledger, id: OrderId)
    requires id in b.settles
    ensures Refunded(b, id, CancelSettle(b, id))
  {
    hide CancelSettle, Paid;
    CancelSettlePays(b, id);
  }

  lemma NoUnits()
    ensures Units([]) == 0
  {}

  lemma OfferIs(x: Amount, b: Bitasset)
    requires b.feed.Some? && b.feed.value.base.n > 0 && x.asset == b.feed.value.base.asset
    requires Times(x, b.feed.value).Some?
    ensures Offer(b, x.n) == Times(x, b.feed.value).value.n * (FULL_PERCENT - b.offsetPercent) / FULL_PERCENT
  {}

  lemma ServedIntro(l: Ledger, assets: Assets, m: AssetId, id: OrderId, cap: int, p: Price, ls: seq<Ledger>,
                    ts: seq<Deal>, last: Ledger, e: Ledger, settled: int)
    requires m in l.bits && id in l.settles && l.bits[m].feed.Some? && l.bits[m].feed.value.base.n > 0
    requires e.bits == l.bits && settled == l.bits[m].settledVolume + Units(ts)
    requires p == PriceOf(m, l.bits[m], l.settles[id].balance.n)
    requires Trades(l, assets, m, id, p, cap - l.bits[m].settledVolume, ls, ts, last)
    requires Stops(last, m, id, p, cap - settled, e)
    ensures RequestServed(l, assets, m, id, cap, PutBit(e, m, e.bits[m].(settledVolume := settled)))
  {
    hide Trades, Stops, Units;
    assert ServedBy(l, assets, m, id, p, cap, ls, ts, last, e, PutBit(e, m, e.bits[m].(settledVolume := settled)));
  }

  lemma StopsTraded(b: Ledger, m: AssetId, id: OrderId, p: Price, room: int)
    requires id !in b.settles || room == 0
    ensures Stops(b, m, id, p, room, b)
  {}

  lemma StopsCancelled(b: Ledger, m: AssetId, id: OrderId, p: Price, room: int)
    requires id in b.settles && room != 0 && (b.settles[id].balance.n == 0 || TooPoorToPay(b, m, id, p, room))
    ensures Stops(b, m, id, p, room, CancelSettle(b, id))
  {
    hide TooPoorToPay, Refunded, CancelSettle;
    CancelRefunds(b, id);
  }

  // ---- what a trace comes to ----

  /** A request that one call order takes whole is paid the offer for all its units. */
  lemma WholeRequestPaid(b: Ledger, assets: Assets, m: AssetId, id: OrderId, p: Price, room: int, t: Deal, b': Ledger)
    requires TradeMade(b, assets, m, id, p, room, t, b') && t.units == p.base.n == b.settles[id].balance.n
    ensures id !in b'.settles
    ensures t.units * p.quote.n / p.base.n == p.quote.n
  {
    hide Paid, IsPoorest;
    FloorOf(p.base.n, p.quote.n, p.base.n);
    ExactQuotient(p.base.n, p.quote.n);
  }

  lemma ExactQuotient(n: int, k: int)
    requires n > 0
    ensures n * k / n == k
  {
    Arith.DivModUnique(n * k, n, k, 0);
  }

  /** What the owner of the request is paid by a list of trades, after market fees. */
  function OwnerPaid(assets: Assets, a: AssetId, p: Price, ts: seq<Deal>): int
    requires p.base.n > 0
  {
    if ts == [] then 0
    else OwnerPaid(assets, a, p, ts[..|ts| - 1])
         + AfterFee(assets, Amount(ts[|ts| - 1].units * p.quote.n / p.base.n, a)).n
  }

  /** What goes back to one holder from call orders whose debt is gone. */
  ghost function BorrowerPaid(p: Price, ls: seq<Ledger>, ts: seq<Deal>, h: Holder): int
    requires |ls| == |ts| + 1 && p.base.n > 0
  {
    if ts == [] then 0
    else
      var n := |ts| - 1;
      BorrowerPaid(p, ls[..|ls| - 1], ts[..n], h) + FreedBy(p, ls[n], ts[n], h)
  }

  function FreedBy(p: Price, b: Ledger, t: Deal, h: Holder): int
    requires p.base.n > 0
  {
    if t.call in b.calls && t.units == b.calls[t.call].debt
       && h == Holder(b.calls[t.call].borrower, b.calls[t.call].Collateral().asset)
    then b.calls[t.call].collateral - t.units * p.quote.n / p.base.n else 0
  }

  lemma TradePays(b: Ledger, assets: Assets, m: AssetId, id: OrderId, p: Price, room: int, t: Deal, b': Ledger)
    requires TradeMade(b, assets, m, id, p, room, t, b')
    ensures var paid := AfterFee(assets, Amount(t.units * p.quote.n / p.base.n, p.quote.asset)).n;
      forall h :: Get(b'.balances, h) == Get(b.balances, h) + FreedBy(p, b, t, h)
                                         + if h == Holder(b.settles[id].owner, p.quote.asset) then paid else 0
    ensures id in b'.settles ==> b'.settles[id].owner == b.settles[id].owner
  {
    hide AfterFee, IsPoorest;
    var c, o := b.calls[t.call], b.settles[id];
    var paid := Amount(t.units * p.quote.n / p.base.n, p.quote.asset);
    var back := Payment(c.borrower, Amount(c.collateral - paid.n, c.Collateral().asset));
    var pay := Payment(o.owner, AfterFee(assets, paid));
    AfterFeeAsset(assets, paid);
    forall h ensures Get(b'.balances, h) == Get(b.balances, h) + FreedBy(p, b, t, h)
      + if h == Holder(o.owner, p.quote.asset) then AfterFee(assets, paid).n else 0
    {
      DueOne(pay, h);
      DueOne(back, h);
      DueConcat(if t.units == c.debt then [back] else [], [pay], h);
    }
  }

  /** The ledger before the last trade is that of the trades before it. */
  lemma TradesInit(l: Ledger, assets: Assets, m: AssetId, id: OrderId, p: Price, room: int, ls: seq<Ledger>,
                   ts: seq<Deal>, r: Ledger)
    requires Trades(l, assets, m, id, p, room, ls, ts, r) && ts != []
    ensures var n := |ts| - 1;
      && |ls| == n + 2 && Trades(l, assets, m, id, p, room, ls[..n + 1], ts[..n], ls[n])
      && TradeMade(ls[n], assets, m, id, p, room - Units(ts[..n]), ts[n], r)
  {
    hide TradeMade, Units;
    var n := |ts| - 1;
    forall k | 0 <= k < n
      ensures TradeMade(ls[..n + 1][k], assets, m, id, p, room - Units(ts[..n][..k]), ts[..n][k], ls[..n + 1][k + 1])
    {
      assert ts[..n][..k] == ts[..k];
    }
  }

  /** Over all trades of a request: its owner is paid for each, borrowers get what is freed, nobody else anything. */
  lemma {:induction false} TradesPay(l: Ledger, assets: Assets, m: AssetId, id: OrderId, p: Price, room: int,
                                     ls: seq<Ledger>, ts: seq<Deal>, r: Ledger, h: Holder)
    requires Trades(l, assets, m, id, p, room, ls, ts, r) && id in l.settles && p.base.n > 0
    ensures |ls| == |ts| + 1
    ensures Get(r.balances, h) == Get(l.balances, h) + BorrowerPaid(p, ls, ts, h)
      + if h == Holder(l.settles[id].owner, p.quote.asset) then OwnerPaid(assets, p.quote.asset, p, ts) else 0
    ensures id in r.settles ==> r.settles[id].owner == l.settles[id].owner
    decreases |ts|
  {
    hide TradeMade, Get, FreedBy, AfterFee, Trades, Units;
    var n := |ts| - 1;
    TradesFirst(l, assets, m, id, p, room, ls, ts, r);
    if ts != [] {
      TradesInit(l, assets, m, id, p, room, ls, ts, r);
      RequestOfTrade(ls[n], assets, m, id, p, room - Units(ts[..n]), ts[n], r);
      TradesPay(l, assets, m, id, p, room, ls[..n + 1], ts[..n], ls[n], h);
      TradePays(ls[n], assets, m, id, p, room - Units(ts[..n]), ts[n], r);
      assert ls[..|ls| - 1] == ls[..n + 1];
    }
  }

  lemma TradesFirst(l: Ledger, assets: Assets, m: AssetId, id: OrderId, p: Price, room: int, ls: seq<Ledger>,
                    ts: seq<Deal>, r: Ledger)
    requires Trades(l, assets, m, id, p, room, ls, ts, r)
    ensures |ls| == |ts| + 1 && ls[0] == l && ls[|ts|] == r
  {}

  lemma RequestOfTrade(b: Ledger, assets: Assets, m: AssetId, id: OrderId, p: Price, room: int, t: Deal, b': Ledger)
    requires TradeMade(b, assets, m, id, p, room, t, b')
    ensures id in b.settles
  {}

  lemma AfterFeeAsset(assets: Assets, x: Amount)
    ensures AfterFee(assets, x).asset == x.asset
  {}

  lemma FirstOfPoorest(l: Ledger, m: AssetId, c: OrderId)
    requires IsPoorest(l, m, c)
    ensures c in l.calls && l.calls[c].Debt().asset == m
  {}

  lemma TradeCollateral(b: Ledger, assets: Assets, m: AssetId, id: OrderId, p: Price, room: int, t: Deal, b': Ledger)
    requires TradeMade(b, assets, m, id, p, room, t, b')
    ensures t.call in b.calls
    ensures var c, paid := b.calls[t.call], t.units * p.quote.n / p.base.n;
      Sum(b'.calls, CollateralIn(p.quote.asset)) == Sum(b.calls, CollateralIn(p.quote.asset)) - paid
        - if t.units == c.debt then c.collateral - paid else 0
  {
    hide Sum, Paid, IsPoorest, AfterFee;
    var c, paid := b.calls[t.call], t.units * p.quote.n / p.base.n;
    var a := c.Collateral().asset;
    if t.units == c.debt {
      SumRemove(b.calls, CollateralIn(a), t.call);
    } else {
      SumUpdate(b.calls, CollateralIn(a), t.call, c.(debt := c.debt - t.units, collateral := c.collateral - paid));
    }
  }

  /** What the owner is paid by a list of trades before market fees, and what goes back to borrowers. */
  function Traded(p: Price, ts: seq<Deal>): int
    requires p.base.n > 0
  {
    if ts == [] then 0 else Traded(p, ts[..|ts| - 1]) + ts[|ts| - 1].units * p.quote.n / p.base.n
  }

  ghost function Freed(p: Price, ls: seq<Ledger>, ts: seq<Deal>): int
    requires |ls| == |ts| + 1 && p.base.n > 0
  {
    if ts == [] then 0
    else
      var n := |ts| - 1;
      Freed(p, ls[..n + 1], ts[..n])
      + if ts[n].call in ls[n].calls && ts[n].units == ls[n].calls[ts[n].call].debt
        then ls[n].calls[ts[n].call].collateral - ts[n].units * p.quote.n / p.base.n else 0
  }

  /** The collateral behind an asset falls by exactly what its requests are paid and what goes back to borrowers. */
  lemma {:induction false} TradesCollateral(l: Ledger, assets: Assets, m: AssetId, id: OrderId, p: Price, room: int,
                                            ls: seq<Ledger>, ts: seq<Deal>, r: Ledger)
    requires Trades(l, assets, m, id, p, room, ls, ts, r) && p.base.n > 0
    ensures |ls| == |ts| + 1
    ensures Sum(r.calls, CollateralIn(p.quote.asset))
      == Sum(l.calls, CollateralIn(p.quote.asset)) - Traded(p, ts) - Freed(p, ls, ts)
    decreases |ts|
  {
    hide Sum, TradeMade, Trades, Units;
    var n := |ts| - 1;
    TradesFirst(l, assets, m, id, p, room, ls, ts, r);
    if ts != [] {
      TradesInit(l, assets, m, id, p, room, ls, ts, r);
      TradesCollateral(l, assets, m, id, p, room, ls[..n + 1], ts[..n], ls[n]);
      TradeCollateral(ls[n], assets, m, id, p, room - Units(ts[..n]), ts[n], r);
    }
  }

  /** The offer: the worth at the feed within one unit, and of that the part the offset leaves within one unit. */
  lemma OfferExact(b: Bitasset, n: int) returns (worth: int)
    requires b.feed.Some? && b.feed.value.base.n > 0
    ensures WithinOneUnit(worth, n, b.feed.value.quote.n, b.feed.value.base.n)
    ensures WithinOneUnit(Offer(b, n), worth, FULL_PERCENT - b.offsetPercent, FULL_PERCENT)
  {
    worth := n * b.feed.value.quote.n / b.feed.value.base.n;
    FloorOf(n, b.feed.value.quote.n, b.feed.value.base.n);
    FloorOf(worth, FULL_PERCENT - b.offsetPercent, FULL_PERCENT);
  }

  // ---- the requests of a block ----

  /** The request is the first of its asset by date and id. */
  ghost predicate IsNext(l: Ledger, id: OrderId) {
    id in l.settles && forall x <- l.settles ::
      l.settles[x].balance.asset == l.settles[id].balance.asset ==> Precedes(l.settles[id], id, l.settles[x], x)
  }

  /** It can no longer be settled. */
  predicate Void(l: Ledger, id: OrderId, now: nat)
    requires id in l.settles && l.settles[id].balance.asset in l.bits
  {
    var b := l.bits[l.settles[id].balance.asset];
    b.settlement.Some? || (l.settles[id].date <= now && b.feed.None?)
  }

  /** It is expired, and its asset can be settled and has volume left. */
  predicate DueNow(l: Ledger, id: OrderId, now: nat)
    requires id in l.settles && l.settles[id].balance.asset in l.bits
  {
    var m := l.settles[id].balance.asset;
    && l.bits[m].settlement.None? && l.bits[m].feed.Some? && l.settles[id].date <= now
    && l.bits[m].settledVolume < Cap(l, m)
  }

  ghost predicate PassOf(l: Ledger, assets: Assets, now: nat, id: OrderId, r: Ledger) {
    && IsNext(l, id) && l.settles[id].balance.asset in l.bits
    && var m := l.settles[id].balance.asset;
    if Void(l, id, now) then Refunded(l, id, r)
    else DueNow(l, id, now) && RequestServed(l, assets, m, id, Cap(l, m), r)
  }

  ghost predicate Pass(l: Ledger, assets: Assets, now: nat, r: Ledger) {
    exists id :: PassOf(l, assets, now, id, r)
  }

  /** The next request of some asset is due and cannot be settled. */
  ghost predicate Throws(l: Ledger, now: nat) {
    exists id :: ThrowsAt(l, now, id)
  }

  ghost predicate ThrowsAt(l: Ledger, now: nat, id: OrderId) {
    && IsNext(l, id) && l.settles[id].balance.asset in l.bits && DueNow(l, id, now)
    && !Settleable(l, l.settles[id].balance.asset, id)
  }

  /** The ledgers between the requests of a block, from l to r. */
  ghost predicate History(l: Ledger, assets: Assets, now: nat, hs: seq<Ledger>, r: Ledger) {
    && |hs| > 0 && hs[0] == l && hs[|hs| - 1] == r
    && forall n :: 0 <= n < |hs| - 1 ==> Pass(hs[n], assets, now, hs[n + 1])
  }

  lemma IsNextOf(l: Ledger, id: OrderId, bound: AssetId)
    requires id in l.settles && l.settles[id].balance.asset >= bound
    requires forall x <- l.settles ::
      l.settles[x].balance.asset >= bound ==> Precedes(l.settles[id], id, l.settles[x], x)
    ensures IsNext(l, id)
  {}

  lemma PassDropped(l: Ledger, assets: Assets, now: nat, id: OrderId, r: Ledger)
    requires IsNext(l, id) && l.settles[id].balance.asset in l.bits && Void(l, id, now) && Refunded(l, id, r)
    ensures Pass(l, assets, now, r)
  {
    hide IsNext, Refunded;
    assert PassOf(l, assets, now, id, r);
  }

  lemma PassServed(l: Ledger, assets: Assets, now: nat, id: OrderId, r: Ledger)
    requires IsNext(l, id) && l.settles[id].balance.asset in l.bits && DueNow(l, id, now)
    requires RequestServed(l, assets, l.settles[id].balance.asset, id, Cap(l, l.settles[id].balance.asset), r)
    ensures Pass(l, assets, now, r)
  {
    hide IsNext, RequestServed, MaxVolume;
    assert PassOf(l, assets, now, id, r);
  }

  lemma ThrowsNow(l: Ledger, now: nat, id: OrderId)
    requires ThrowsAt(l, now, id)
    ensures Throws(l, now)
  {}

  lemma HistoryStart(l: Ledger, assets: Assets, now: nat)
    ensures History(l, assets, now, [l], l)
  {}

  lemma HistoryNext(l: Ledger, assets: Assets, now: nat, hs: seq<Ledger>, b: Ledger, r: Ledger)
    requires History(l, assets, now, hs, b) && Pass(b, assets, now, r)
    ensures History(l, assets, now, hs + [r], r)
  {
    hide Pass;
  }

  /** The cap is the floored percentage of what the supply was before any settlement of the period. */
  lemma CapExact(b: Bitasset, supply: int)
    requires supply >= 0 && b.settledVolume >= 0 && b.volumePercent <= FULL_PERCENT
    ensures WithinOneUnit(MaxVolume(b, supply), supply + b.settledVolume, b.volumePercent, FULL_PERCENT)
  {
    FloorOf(supply + b.settledVolume, b.volumePercent, FULL_PERCENT);
  }
}
