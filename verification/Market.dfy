/**
 * The market part of the database object: its records are fields, the operations of db_market.cpp and the
 * settlement part of clear_expired_orders are methods. A method that returns ok == false stands for a thrown
 * exception; the records are then in the hands of the enclosing undo session.
 */
module Market {
  import opened Wrappers
  import opened MapSum
  import opened Ledger
  import opened MarketSpec
  import opened Floors
  import opened MarketLaws
  import opened MarketRun
  import opened ForceSettlement
  import opened BlackSwan
  import opened Payments
  import opened CallOrders
  import opened SettleRun

  datatype Outcome = Done | Swan | Thrown

  class Database {
    const assets: Assets
    var balances: map<Holder, int>
    var limits: map<OrderId, LimitOrder>
    var calls: map<OrderId, CallOrder>
    var settles: map<OrderId, SettleOrder>
    var supply: map<AssetId, int>
    var fees: map<AssetId, int>
    var pending: map<Account, int>
    var bits: map<AssetId, Bitasset>

    function Records(): Ledger
      reads this
    {
      Ledger(balances, limits, calls, settles, supply, fees, pending, bits)
    }

    constructor (l: Ledger, assets: Assets)
      ensures Records() == l && this.assets == assets
    {
      this.assets := assets;
      balances, limits, calls, settles := l.balances, l.limits, l.calls, l.settles;
      supply, fees, pending, bits := l.supply, l.fees, l.pending, l.bits;
    }

    /** adjust_balance: refused exactly when the account does not have what is taken. */
    method AdjustBalance(who: Account, x: Amount) returns (ok: bool)
      requires NonNegative(balances)
      modifies this`balances
      ensures ok <==> Get(old(balances), Holder(who, x.asset)) + x.n >= 0
      ensures Records() == if ok then Credit(old(Records()), who, x) else old(Records())
    {
      if x.n == 0 {
        return true;
      }
      var h := Holder(who, x.asset);
      if h !in balances {
        if x.n < 0 {
          return false;
        }
        balances := balances[h := x.n];
      } else {
        if x.n < 0 && balances[h] < -x.n {
          return false;
        }
        balances := balances[h := balances[h] + x.n];
      }
      return true;
    }

    /** pay_market_fees. */
    method PayMarketFees(x: Amount) returns (fee: int)
      requires SaneAssets(assets) && x.n >= 0
      modifies this`fees
      ensures fee == MarketFee(Options(assets, x.asset), x.n) && 0 <= fee <= x.n
      ensures Records() == AddFee(old(Records()), Amount(fee, x.asset))
    {
      var o := Options(assets, x.asset);
      fee := 0;
      if o.chargesFees && o.feePercent != 0 {
        fee := x.n * o.feePercent / FULL_PERCENT;
        if fee > o.maxFee {
          fee := o.maxFee;
        }
      }
      FeeIsPart(o, x.n);
      if fee > 0 {
        fees := fees[x.asset := Get(fees, x.asset) + fee];
      }
    }

    /** pay_market_fees followed by adjust_balance, as every fill does. */
    method Pay(who: Account, x: Amount)
      requires SaneAssets(assets) && x.n >= 0 && NonNegative(balances)
      modifies this`fees, this`balances
      ensures Records() == PayOut(old(Records()), assets, who, x)
    {
      hide MarketFee, Options, SaneAssets;
      var fee := PayMarketFees(x);
      var ok := AdjustBalance(who, Amount(x.n - fee, x.asset));
    }

    /** cancel_order for a limit order. */
    method CancelLimitOrder(id: OrderId)
      requires Sane(Records()) && id in limits
      modifies this`balances, this`limits
      ensures Records() == CancelLimit(old(Records()), id)
    {
      hide SaneCalls, SaneSettles, SaneBits;
      var o := limits[id];
      assert SaneLimit(o);
      var ok := AdjustBalance(o.seller, o.AmountForSale());
      ok := AdjustBalance(o.seller, Amount(o.deferredFee, CORE));
      limits := limits - {id};
    }

    /** cancel_order for a force settlement. */
    method CancelSettlement(id: OrderId)
      requires Sane(Records()) && id in settles
      modifies this`balances, this`settles
      ensures Records() == CancelSettle(old(Records()), id)
    {
      hide SaneCalls, SaneLimits, SaneBits;
      var ok := AdjustBalance(settles[id].owner, settles[id].balance);
      settles := settles - {id};
    }

    /** maybe_cull_small_order. */
    method MaybeCullSmallOrder(id: OrderId) returns (ok: bool, gone: bool)
      requires Sane(Records()) && id in limits
      modifies this`balances, this`limits
      ensures var r := Times(old(limits[id]).AmountForSale(), old(limits[id]).sellPrice);
        && ok == r.Some?
        && (ok ==> gone == (r.value.n == 0))
        && Records() == if ok && gone then CancelLimit(old(Records()), id) else old(Records())
    {
      hide Sane, CancelLimit, Times;
      gone := false;
      var r := Times(limits[id].AmountForSale(), limits[id].sellPrice);
      if r.None? {
        return false, false;
      }
      if r.value.n == 0 {
        CancelLimitOrder(id);
        return true, true;
      }
      return true, false;
    }

    /** fill_order for a limit order. */
    method FillLimitOrder(id: OrderId, pays: Amount, receives: Amount, cullIfSmall: bool) returns (ok: bool, gone: bool)
      requires Sane(Records()) && SaneAssets(assets) && id in limits && 0 <= pays.n <= limits[id].forSale
      requires receives.n >= 0
      modifies this`balances, this`limits, this`fees, this`pending
      ensures ok <==> FillLimit(old(Records()), assets, id, pays, receives, cullIfSmall).Some?
      ensures ok ==> FillLimit(old(Records()), assets, id, pays, receives, cullIfSmall) == Some((Records(), gone))
    {
      hide SaneCalls, SaneSettles, SaneBits, Times, PayOut, CancelLimit;
      var o := limits[id];
      assert SaneLimit(o);
      if o.sellPrice.base.asset != pays.asset || pays.asset == receives.asset {
        return false, false;
      }
      ghost var before := Records();
      PayOutFrame(before, assets, o.seller, receives);
      PayOutSane(before, assets, o.seller, receives);
      Pay(o.seller, receives);
      if o.deferredFee > 0 {
        pending := pending[o.seller := Get(pending, o.seller) + o.deferredFee];
      }
      if pays.n == o.forSale {
        limits := limits - {id};
        return true, true;
      }
      limits := limits[id := o.(forSale := o.forSale - pays.n, deferredFee := 0)];
      if cullIfSmall {
        ok, gone := MaybeCullSmallOrder(id);
        return;
      }
      return true, false;
    }

    /** fill_order for a call order. */
    method FillCallOrder(id: OrderId, pays: Amount, receives: Amount) returns (ok: bool, freed: bool)
      requires Sane(Records()) && id in calls
      modifies this`balances, this`calls, this`supply
      ensures ok <==> FillCall(old(Records()), id, pays, receives).Some?
      ensures ok ==> FillCall(old(Records()), id, pays, receives) == Some((Records(), freed))
    {
      hide SaneLimits, SaneSettles, SaneBits;
      var o := calls[id];
      if o.Debt().asset != receives.asset || o.Collateral().asset != pays.asset || o.collateral < pays.n {
        return false, false;
      }
      var left := o.(debt := o.debt - receives.n, collateral := o.collateral - pays.n);
      supply := Adjust(supply, receives.asset, -receives.n);
      if left.debt == 0 {
        assert Get(balances, Holder(o.borrower, left.Collateral().asset)) >= 0;
        ok := AdjustBalance(o.borrower, left.Collateral());
        calls := calls - {id};
        return true, true;
      }
      calls := calls[id := left];
      return true, false;
    }

    /** fill_order for a force settlement. */
    method FillSettlement(id: OrderId, pays: Amount, receives: Amount) returns (filled: bool)
      requires Sane(Records()) && SaneAssets(assets) && id in settles && receives.n >= 0
      modifies this`balances, this`settles, this`fees
      ensures FillSettle(old(Records()), assets, id, pays, receives) == (Records(), filled)
    {
      hide SaneCalls, SaneLimits, SaneSettles, SaneBits, PayOut;
      var o := settles[id];
      PayOutFrame(Records(), assets, o.owner, receives);
      Pay(o.owner, receives);
      if pays.n < o.balance.n {
        settles := settles[id := o.(balance := Amount(o.balance.n - pays.n, o.balance.asset))];
        return false;
      }
      settles := settles - {id};
      return true;
    }

    /** match for two limit orders at the resting order's price. */
    method MatchLimitOrders(usd: OrderId, core: OrderId) returns (ok: bool, usdDone: bool, coreDone: bool)
      requires Invariant(Records()) && SaneAssets(assets) && usd in limits && core in limits
      requires Opposed(Records(), usd, core, limits[core].sellPrice)
      modifies this`balances, this`limits, this`fees, this`pending
      ensures var r := MatchLimits(old(Records()), assets, usd, core, old(limits[core]).sellPrice);
        && (ok <==> r.Some?)
        && (ok ==> r == Some((Records(), usdDone, coreDone)) && (usdDone || coreDone))
      ensures ok ==> Invariant(Records()) && Conserves(old(Records()), Records())
    {
      hide FillLimit, Sane, Covered, Times, Conserves;
      usdDone, coreDone := false, false;
      ghost var before := Records();
      var p := limits[core].sellPrice;
      var usdForSale, coreForSale := limits[usd].AmountForSale(), limits[core].AmountForSale();
      SaneOrders(before, usd, core);
      var worth := Times(coreForSale, p);
      if worth.None? {
        return false, false, false;
      }
      var usdPays, corePays := usdForSale, coreForSale;
      if usdForSale.n <= worth.value.n {
        var r := Times(usdForSale, p);
        if r.None? {
          return false, false, false;
        }
        corePays := r.value;
      } else {
        usdPays := worth.value;
      }
      MatchIsFair(usdForSale, coreForSale, p);
      ok, usdDone := FillLimitOrder(usd, usdPays, corePays, false);
      if !ok {
        return;
      }
      FillLimitFrame(before, assets, usd, usdPays, corePays, false);
      FillLimitSane(before, assets, usd, usdPays, corePays, false);
      ok, coreDone := FillLimitOrder(core, corePays, usdPays, true);
      if ok {
        MatchLimitsKeeps(before, assets, usd, core);
      }
    }

    /** The call orders of m, each once. */
    method ListCalls(m: AssetId) returns (ids: seq<OrderId>)
      ensures Lists(Records(), m, ids)
    {
      ids := [];
      var rest := calls.Keys;
      while rest != {}
        invariant rest <= calls.Keys
        invariant forall i, j :: 0 <= i < j < |ids| ==> ids[i] != ids[j]
        invariant forall i :: 0 <= i < |ids| ==> ids[i] in calls && ids[i] !in rest && calls[ids[i]].Debt().asset == m
        invariant forall id <- calls :: calls[id].Debt().asset == m ==> id in ids || id in rest
        decreases |rest|
      {
        var id :| id in rest;
        rest := rest - {id};
        if calls[id].Debt().asset == m {
          ids := ids + [id];
        }
      }
    }

    /** The loop of globally_settle_asset. */
    method CloseAllCalls(ids: seq<OrderId>, p: Price) returns (ok: bool, gathered: int)
      requires Sane(Records()) && SanePrice(p)
      modifies this`balances, this`calls, this`supply
      ensures ok <==> CloseCalls(old(Records()), ids, p, 0).Some?
      ensures ok ==> CloseCalls(old(Records()), ids, p, 0) == Some((Records(), gathered))
    {
      hide FillCall, Times, Sane;
      gathered := 0;
      for i := 0 to |ids|
        invariant Sane(Records())
        invariant CloseCalls(old(Records()), ids, p, 0) == CloseCalls(Records(), ids[i..], p, gathered)
      {
        assert ids[i..][0] == ids[i] && ids[i..][1..] == ids[i + 1..];
        if ids[i] !in calls {
          return false, 0;
        }
        var o := calls[ids[i]];
        SaneCallOrder(Records(), ids[i]);
        var pays := Times(o.Debt(), p);
        if pays.None? || pays.value.asset != o.Collateral().asset {
          return false, 0;
        }
        TimesNonNegative(o.Debt(), p);
        var paid := pays.value;
        if paid.n > o.collateral {
          paid := o.Collateral();
        }
        ghost var before := Records();
        var filled, freed := FillCallOrder(ids[i], paid, o.Debt());
        if !filled || !freed {
          return false, 0;
        }
        FillCallSane(before, ids[i], paid, o.Debt());
        gathered := gathered + paid.n;
      }
      ok := true;
    }

    /** globally_settle_asset. */
    method GloballySettle(m: AssetId, p: Price) returns (ok: bool)
      requires Invariant(Records()) && m in bits && SanePrice(p)
      modifies this`balances, this`calls, this`supply, this`bits
      ensures ok ==> Invariant(Records()) && Conserves(old(Records()), Records())
      ensures ok ==> PricesStay(old(Records()), Records())
      ensures ok <==> Closable(old(Records()), m, p)
      ensures ok ==> GloballySettled(old(Records()), m, p, Records())
    {
      hide CloseCalls, Sane, Covered, Conserves, PricesStay, Lists, Closable, GloballySettled;
      ghost var before := Records();
      var ids := ListCalls(m);
      GlobalSettleIff(before, m, p, ids);
      if bits[m].settlement.Some? {
        return false;
      }
      var original := Get(supply, m);
      var closed, gathered := CloseAllCalls(ids, p);
      if !closed || m == bits[m].backing {
        return false;
      }
      var price := Price(Amount(original, m), Amount(gathered, bits[m].backing));
      bits := bits[m := bits[m].(settlement := Some(price), fund := gathered)];
      supply := supply[m := original];
      GlobalSettleKeeps(before, m, p, ids);
      GlobalSettleDoes(before, m, p, ids);
      OnePriceStays(before, Records(), m);
      ok := true;
    }

    /** One pass of the loop of check_call_orders, once its tests are passed. */
    method CallMargin(call: OrderId, bid: OrderId) returns (ok: bool, callDone: bool, bidDone: bool)
      requires Invariant(Records()) && SaneAssets(assets) && call in calls && bid in limits
      modifies this`balances, this`limits, this`calls, this`supply, this`fees, this`pending
      ensures var r := MarginCall(old(Records()), assets, call, bid);
        (ok <==> r.Some?) && (ok ==> r == Some((Records(), callDone, bidDone)) && (callDone || bidDone))
      ensures ok ==> Invariant(Records()) && Conserves(old(Records()), Records())
    {
      hide FillLimit, FillCall, Sane, Covered, Times, Conserves;
      callDone, bidDone := false, false;
      ghost var before := Records();
      var c, o := calls[call], limits[bid];
      SaneOrders(before, bid, bid);
      SaneCallOrder(before, call);
      var worth := Times(c.Debt(), o.sellPrice);
      if worth.None? || worth.value.asset != c.Collateral().asset || worth.value.n > c.collateral {
        return false, false, false;
      }
      var traded := if c.debt >= o.forSale then Amount(o.forSale, c.Debt().asset) else c.Debt();
      var price := Times(traded, o.sellPrice);
      if price.None? {
        return false, false, false;
      }
      TimesNonNegative(traded, o.sellPrice);
      ok, callDone := FillCallOrder(call, price.value, traded);
      if !ok {
        return;
      }
      FillCallFrame(before, call, price.value, traded);
      FillCallSane(before, call, price.value, traded);
      ok, bidDone := FillLimitOrder(bid, traded, price.value, true);
      if ok {
        MarginCallKeeps(before, assets, call, bid);
      }
    }

    /** The begin of the range of m in the call index. */
    method FirstCall(m: AssetId) returns (r: Option<OrderId>)
      requires Sane(Records())
      ensures r.None? ==> forall c <- calls :: !IsCall(Records(), m, c)
      ensures r.Some? ==> IsFirstCall(Records(), m, r.value)
    {
      hide Sane, Before;
      r := None;
      var rest := calls.Keys;
      while rest != {}
        invariant rest <= calls.Keys
        invariant r.None? ==> forall c <- calls :: c in rest || !IsCall(Records(), m, c)
        invariant r.Some? ==> IsCall(Records(), m, r.value) && forall c <- calls ::
          c in rest || !IsCall(Records(), m, c) || Before(calls[r.value].callPrice, r.value, calls[c].callPrice, c)
        decreases |rest|
      {
        var id :| id in rest;
        rest := rest - {id};
        SaneCallPrices(Records());
        if calls[id].Debt().asset == m
           && (r.None? || !Before(calls[r.value].callPrice, r.value, calls[id].callPrice, id)) {
          ghost var was := r;
          r := Some(id);
          NowFirst(Records(), m, was, id, rest);
        }
      }
    }

    /** The begin of the range of bids for m in the limit order index, which is sorted from greatest to least. */
    method BestBid(m: AssetId) returns (r: Option<OrderId>)
      requires Sane(Records()) && m in bits
      ensures r.None? ==> forall b <- limits :: !IsBid(Records(), m, b)
      ensures r.Some? ==> IsBestBid(Records(), m, r.value)
    {
      hide Sane, AtLeast;
      r := None;
      var rest := limits.Keys;
      while rest != {}
        invariant rest <= limits.Keys
        invariant r.None? ==> forall b <- limits :: b in rest || !IsBid(Records(), m, b)
        invariant r.Some? ==> IsBid(Records(), m, r.value) && forall b <- limits ::
          b in rest || !IsBid(Records(), m, b) || AtLeast(limits[r.value].sellPrice, limits[b].sellPrice)
        decreases |rest|
      {
        var id :| id in rest;
        rest := rest - {id};
        if IsBid(Records(), m, id) && (r.None? || !AtLeast(limits[r.value].sellPrice, limits[id].sellPrice)) {
          ghost var was := r;
          r := Some(id);
          NowBest(Records(), m, was, id, rest);
        }
      }
    }

    /** The greater of the feed and the best bid. */
    method HighestPrice(m: AssetId) returns (p: Price)
      requires Sane(Records()) && m in bits && bits[m].feed.Some?
      ensures forall c :: IsCall(Records(), m, c) ==> (AtLeast(Owes(calls[c]), p) <==> Underwater(Records(), m, c))
    {
      hide Sane, AtLeast, Underwater;
      p := bits[m].feed.value;
      var bid := BestBid(m);
      if bid.Some? && !Exceeds(p, limits[bid.value].sellPrice) {
        p := limits[bid.value].sellPrice;
      }
      HighestOf(Records(), m, bid, p);
      forall c | IsCall(Records(), m, c) ensures AtLeast(Owes(calls[c]), p) <==> Underwater(Records(), m, c) {
        HighestDecides(Records(), m, c, p);
      }
    }

    /**
     * check_for_blackswan. For an asset with no global settlement it goes on without one exactly when the order with
     * the least call price can be covered by the feed or some bid; otherwise it settles at what that order owes, or
     * throws.
     */
    method CheckForBlackSwan(m: AssetId, enable: bool) returns (ok: bool, settled: bool)
      requires Invariant(Records()) && m in bits
      modifies this`balances, this`calls, this`supply, this`bits
      ensures ok ==> Invariant(Records()) && Conserves(old(Records()), Records())
      ensures ok ==> PricesStay(old(Records()), Records())
      ensures ok ==> m in bits && settled == bits[m].settlement.Some?
      ensures ok && (!settled || old(bits)[m].settlement.Some?) ==> Records() == old(Records())
      ensures old(bits)[m].settlement.Some? ==> ok && settled
      ensures old(bits)[m].settlement.None? ==> (ok && !settled <==> !SwanDeclared(old(Records()), m))
      ensures old(bits)[m].settlement.None? && SwanDeclared(old(Records()), m) ==>
        SwanEnds(old(Records()), m, enable, ok, Records())
    {
      hide Sane, Covered, Gap, AtLeast, IsFirstCall, Underwater, Closable, GloballySettled;
      if bits[m].settlement.Some? {
        return true, true;
      }
      ghost var before := Records();
      var first := FirstCall(m);
      if bits[m].feed.None? || first.None? {
        NoSwan(before, m);
        return true, false;
      }
      FirstIsCall(before, m, first.value);
      FirstDecides(before, m, first.value);
      var highest := HighestPrice(m);
      var p := Owes(calls[first.value]);
      if !AtLeast(p, highest) {
        return true, false;
      }
      if !enable {
        assert SettledOrThrown(before, m, p, enable, false, before);
        return false, false;
      }
      SaneOwes(before, first.value);
      ok := GloballySettle(m, p);
      settled := true;
      assert SettledOrThrown(before, m, p, enable, ok, Records());
      if ok {
        SettledNow(before, m, p, Records());
      }
    }

    /** One pass of the loop of check_call_orders at place c; `filled` says that an earlier pass filled its bid. */
    method CallPass(k: Book, c: At, filled: bool, enable: bool)
      returns (ok: bool, more: bool, called: bool, d: At, filled': bool)
      requires Invariant(Records()) && SaneAssets(assets) && k.m in bits && bits[k.m].settlement.None?
      requires !bits[k.m].prediction && c.i <= |k.bids| && c.j <= |k.queue|
      modifies this
      ensures ok ==> Invariant(Records()) && Conserves(old(Records()), Records())
      ensures ok ==> PricesStay(old(Records()), Records())
      ensures called <==> !SwanDeclared(old(Records()), k.m) && Callable(old(Records()), k, c)
      ensures !more ==> Ends(old(Records()), assets, k, c, enable, ok, Records())
      ensures more ==> ok && called && bits == old(bits)
      ensures more ==> PassMade(assets, k, old(Records()), c, filled', Records(), d)
      ensures more ==> (filled' <==> filled || FillsBid(old(Records()), k, c))
      ensures more ==> d.i <= |k.bids| && d.j <= |k.queue| && d.i + d.j > c.i + c.j
    {
      hide Invariant, Conserves, PricesStay, MarginCall, Times, SaneAssets, GloballySettled, Closable, SwanDeclared;
      hide SwanEnds, SettledOrThrown, Ends, PassMade;
      var m, settled := k.m, false;
      ghost var before := Records();
      more, called, d, filled' := false, false, c, filled;
      ok, settled := CheckForBlackSwan(m, enable);
      EndsEarly(before, assets, k, c, enable, ok, Records());
      if !ok || settled || c.j == |k.queue| || c.i == |k.bids| {
        return;
      }
      if k.bids[c.i] !in limits || k.queue[c.j] !in calls || bits[m].feed.None? {
        return;
      }
      var bid, call := limits[k.bids[c.i]], calls[k.queue[c.j]];
      if Exceeds(bits[m].feed.value, Inverse(call.callPrice)) || Exceeds(bid.sellPrice, Inverse(call.callPrice)) {
        return;
      }
      called := true;
      var worth := Times(call.Debt(), bid.sellPrice);
      if worth.Some? && worth.value.asset == call.Collateral().asset && worth.value.n > call.collateral {
        if !enable {
          ok := false;
          EndsShort(before, assets, k, c, enable, ok, before);
          return;
        }
        SaneOf(before);
        SaneFeed(before, m);
        ok := GloballySettle(m, bits[m].feed.value);
        EndsShort(before, assets, k, c, enable, ok, Records());
        return;
      }
      filled' := filled || call.debt >= bid.forSale;
      d := At(if filled' then c.i + 1 else c.i, if call.debt <= bid.forSale then c.j + 1 else c.j);
      var done, gone;
      ok, done, gone := CallMargin(k.queue[c.j], k.bids[c.i]);
      if !ok {
        EndsThrown(before, assets, k, c, enable, Records());
      } else {
        more := true;
        PassDone(assets, k, before, c, filled', Records(), d);
        PassFrame(before, assets, k.queue[c.j], k.bids[c.i]);
        SamePrices(before, Records());
      }
    }

    /**
     * check_call_orders over a book of bids and call orders in index order. ls and cs are the ledgers and places before
     * each pass and at the end: what is called, in which order, and how the run stops are all determined. As in the
     * source, the flag for a filled bid is never reset, and an iterator whose order is gone ends the scan.
     */
    method CheckCallOrders(k: Book, enable: bool)
      returns (ok: bool, called: bool, ghost ls: seq<Ledger>, ghost cs: seq<At>)
      requires Invariant(Records()) && SaneAssets(assets) && k.m in bits
      modifies this
      ensures ok ==> Invariant(Records()) && Conserves(old(Records()), Records())
      ensures ok ==> PricesStay(old(Records()), Records())
      ensures called <==> Calls(old(Records()), k)
      ensures Follows(old(Records()), assets, k, ls, cs) && (!called ==> |cs| == 1)
      ensures Ends(ls[|ls| - 1], assets, k, cs[|cs| - 1], enable, ok, Records())
    {
      hide Invariant, SaneAssets, Conserves, PricesStay, SwanDeclared, SwanEnds, PassMade, Callable, Short, Ends;
      hide Follows, BidFilled;
      var m := k.m;
      ghost var start := Records();
      called := false;
      ls, cs := [start], [At(0, 0)];
      FollowsStart(start, assets, k);
      Reflexive(start);
      var settled;
      ok, settled := CheckForBlackSwan(m, enable);
      if !ok || settled || bits[m].prediction || bits[m].feed.None? || k.bids == [] {
        NotCalled(start, k);
        EndsEarly(start, assets, k, At(0, 0), enable, ok, Records());
        return;
      }
      var c, filled, more := At(0, 0), false, true;
      while true
        invariant m in bits && bits[m].settlement.None? && !bits[m].prediction
        invariant Invariant(Records()) && Conserves(start, Records()) && PricesStay(start, Records())
        invariant Follows(start, assets, k, ls, cs)
        invariant |ls| == |cs| > 0 && ls[|ls| - 1] == Records() && cs[|cs| - 1] == c
        invariant |cs| == 1 ==> !called && Records() == start && c == At(0, 0)
        invariant |cs| > 1 ==> called && Calls(start, k)
        invariant filled <==> |cs| > 1 && BidFilled(k, ls, cs, |cs| - 2)
        invariant c.i <= |k.bids| && c.j <= |k.queue|
        decreases |k.bids| + |k.queue| - c.i - c.j
      {
        ghost var before := Records();
        var now, d, filled';
        ok, more, now, d, filled' := CallPass(k, c, filled, enable);
        called := called || now;
        ConservesAcross(start, before, Records());
        if !more {
          return;
        }
        PairOfPass(assets, k, before, c, filled', Records(), d);
        BidFilledStep(k, ls, cs);
        BidFilledNext(k, ls, cs, |cs| - 1, Records(), d);
        FollowsNext(start, assets, k, ls, cs, Records(), d);
        ls, cs, c, filled := ls + [Records()], cs + [d], d, filled';
      }
    }

    /** asset_settle_evaluator. */
    method SettleAsset(who: Account, x: Amount, id: OrderId, date: nat) returns (ok: bool)
      requires Invariant(Records()) && id !in settles
      modifies this`balances, this`bits, this`supply, this`settles
      ensures ok <==> Settle(old(Records()), who, x, id, date).Some?
      ensures ok ==> Settle(old(Records()), who, x, id, date) == Some(Records())
      ensures ok ==> Invariant(Records()) && Conserves(old(Records()), Records())
    {
      hide Invariant, Sane, DrawnFund, Conserves, NonNegative, Get, Adjust;
      ghost var before := Records();
      SaneOf(before);
      if !MaySettle(Records(), who, x) {
        return false;
      }
      var b := bits[x.asset];
      CreditSane(before, who, Amount(-x.n, x.asset));
      SaneBalances(before);
      ok := AdjustBalance(who, Amount(-x.n, x.asset));
      if b.settlement.Some? {
        ok := DrawFund(who, x, before);
      } else {
        settles := settles[id := SettleOrder(who, x, date)];
      }
      if ok {
        SettleKeeps(before, who, x, id, date);
      }
    }

    /** The redemption branch of asset_settle_evaluator, after the holder's units have been taken. */
    method DrawFund(who: Account, x: Amount, ghost before: Ledger) returns (ok: bool)
      requires Invariant(before) && Sane(Records()) && x.asset in bits && bits[x.asset].settlement.Some?
      requires Records() == Credit(before, who, Amount(-x.n, x.asset))
      requires 0 <= x.n <= Get(before.balances, Holder(who, x.asset))
      modifies this`balances, this`bits, this`supply
      ensures ok <==> DrawnFund(old(Records()), who, x).Some?
      ensures ok ==> DrawnFund(old(Records()), who, x) == Some(Records())
    {
      hide Sane, Covered, Times, NonNegative, Get, Gap;
      var b := bits[x.asset];
      var paid := Times(x, b.settlement.value);
      if paid.None? || paid.value.n > b.fund {
        return false;
      }
      FundCoversHolder(before, who, x);
      SaneBalances(Records());
      BalanceNonNegative(Records(), Holder(who, paid.value.asset));
      bits := bits[x.asset := b.(fund := b.fund - paid.value.n)];
      ok := AdjustBalance(who, paid.value);
      supply := Adjust(supply, x.asset, -x.n);
    }

    /** match for a call order and a force settlement. */
    method MatchCallSettlement(call: OrderId, settle: OrderId, p: Price, max: nat) returns (r: Outcome, traded: int)
      requires Invariant(Records()) && SaneAssets(assets) && call in calls && settle in settles && SanePrice(p)
      modifies this`balances, this`calls, this`settles, this`supply, this`fees
      ensures var m := MatchSettle(old(Records()), assets, call, settle, p, max);
        && (r == Done <==> m.Settled?) && (r == Swan <==> m.BlackSwan?)
        && (r == Done ==> m == Settled(Records(), traded))
        && (r == Swan ==> Records() == old(Records()))
    {
      hide Sane, Covered, FillSettle, FillCall;
      ghost var before := Records();
      traded := 0;
      var terms := SettleTerms(calls[call], settles[settle], p, max);
      if terms.NoTerms? {
        return Thrown, 0;
      }
      if terms.TooPoor? {
        return Swan, 0;
      }
      TermsFit(calls[call], settles[settle], p, max);
      SaneCallOrder(before, call);
      var ok, freed := FillCallOrder(call, terms.price, terms.units);
      if !ok {
        return Thrown, 0;
      }
      FillCallFrame(before, call, terms.price, terms.units);
      FillCallSane(before, call, terms.price, terms.units);
      var filled := FillSettlement(settle, terms.units, terms.price);
      return Done, terms.units.n;
    }

    /** The begin of the range of m in the call index by collateralization. */
    method PoorestCall(m: AssetId) returns (r: Option<OrderId>)
      requires Sane(Records())
      ensures r.None? ==> forall c <- calls :: !IsCall(Records(), m, c)
      ensures r.Some? ==> IsPoorest(Records(), m, r.value)
    {
      hide Sane, AtLeast;
      r := None;
      var rest := calls.Keys;
      while rest != {}
        invariant rest <= calls.Keys
        invariant r.None? ==> forall c <- calls :: c in rest || !IsCall(Records(), m, c)
        invariant r.Some? ==> IsCall(Records(), m, r.value) && forall c <- calls ::
          c in rest || !IsCall(Records(), m, c) || AtLeast(Owes(calls[r.value]), Owes(calls[c]))
        decreases |rest|
      {
        var id :| id in rest;
        rest := rest - {id};
        if calls[id].Debt().asset == m && (r.None? || !AtLeast(Owes(calls[r.value]), Owes(calls[id]))) {
          ghost var was := r;
          r := Some(id);
          NowPoorest(Records(), m, was, id, rest);
        }
      }
    }

    /**
     * One match of the inner loop, with the poorest call order; one is there. It throws exactly if that has no
     * collateral.
     */
    method SettleOnce(m: AssetId, id: OrderId, p: Price, max: nat) returns (r: Outcome, call: OrderId, traded: int)
      requires Invariant(Records()) && SaneAssets(assets) && SanePrice(p) && m in bits && bits[m].settlement.None?
      requires id in settles && settles[id].balance.asset == m && settles[id].balance.n > 0 && 0 < max <= Get(supply, m)
      requires Quotes(Records(), m, settles[id].balance.n, p)
      modifies this`balances, this`calls, this`settles, this`supply, this`fees
      ensures r == Thrown <==> !AllBacked(old(Records()), m)
      ensures r == Swan ==> Records() == old(Records()) && TooPoorToPay(Records(), m, id, p, max)
      ensures r == Done ==> TradeMade(old(Records()), assets, m, id, p, max, Deal(call, traded), Records())
      ensures r == Done ==> Invariant(Records()) && Conserves(old(Records()), Records()) && 0 < traded <= max
      ensures r == Done ==> AllBacked(Records(), m) && Eases(old(Records()), Records())
      ensures r == Done ==> settles - {id} == old(settles) - {id} && (id in settles ==> settles[id].balance.asset == m)
      ensures r == Done ==> forall a :: Get(supply, a) == Get(old(supply), a) - if a == m then traded else 0
    {
      hide Sane, Covered, Gap, MatchSettle, Get, SaneAssets, AllBacked, IsPoorest, Eases, SettlementMatched, CannotPay;
      ghost var before := Records();
      ghost var debtor := DebtorExists(before, m);
      var found := PoorestCall(m);
      call := found.value;
      PoorestThere(before, m, call);
      SaneCallOrder(before, call);
      MatchThrowsIff(before, assets, m, call, id, p, max);
      r, traded := MatchCallSettlement(call, id, p, max);
      if r == Swan {
        SwanCannotPay(before, assets, m, call, id, p, max);
      }
      if r == Done {
        MatchSettleDoes(before, assets, call, id, p, max);
        MatchSettleKeeps(before, assets, call, id, p, max);
        MatchSettleFrame(before, assets, call, id, p, max);
        MatchEases(before, assets, call, id, p, max);
        EasesBacked(before, Records(), m);
      }
    }

    /**
     * The inner loop of clear_expired_orders: match the order with the poorest call order until it is gone or the cap
     * is
     * reached. A call order is there each time one is needed. It throws exactly when the request is not empty and some
     * call order of the asset has no collateral left.
     */
    method SettleOrderAgainstCalls(m: AssetId, id: OrderId, p: Price, cap: int)
      returns (ok: bool, settled: int, ghost ls: seq<Ledger>, ghost ts: seq<Deal>, ghost last: Ledger)
      requires Invariant(Records()) && SaneAssets(assets) && SanePrice(p)
      requires m in bits && bits[m].settlement.None? && id in settles && settles[id].balance.asset == m
      requires bits[m].settledVolume < cap <= Get(supply, m) + bits[m].settledVolume
      requires Quotes(Records(), m, settles[id].balance.n, p)
      modifies this`balances, this`calls, this`settles, this`supply, this`fees
      ensures ok <==> old(settles)[id].balance.n == 0 || AllBacked(old(Records()), m)
      ensures ok ==> Processed(old(Records()), Records(), m, id, settled, cap) && (id !in settles || settled == cap)
      ensures ok && id in settles ==> settles[id].balance.asset == m
      ensures ok ==> Eases(old(Records()), Records())
      ensures ok ==> Trades(old(Records()), assets, m, id, p, cap - bits[m].settledVolume, ls, ts, last)
      ensures ok ==> Stops(last, m, id, p, cap - settled, Records()) && settled == bits[m].settledVolume + Units(ts)
    {
      hide Invariant, Conserves, MatchSettle, Get, SaneAssets, AllBacked, IsPoorest, Eases, Trades, Units, TradeMade;
      hide TooPoorToPay, Refunded, Quotes, Processed, Stops;
      ProcessedStart(Records(), m, id, cap);
      EasesSame(Records());
      TradesStart(Records(), assets, m, id, p, cap - bits[m].settledVolume);
      NoUnits();
      ghost var start, room := Records(), cap - bits[m].settledVolume;
      ls, ts, last := [start], [], start;
      settled := bits[m].settledVolume;
      while settled < cap && id in settles
        invariant Processed(old(Records()), Records(), m, id, settled, cap) && bits == old(bits)
        invariant id in settles ==> settles[id].balance.asset == m
        invariant Eases(old(Records()), Records()) && (AllBacked(Records(), m) ==> AllBacked(old(Records()), m))
        invariant AllBacked(Records(), m) || (Records() == old(Records()) && settled == bits[m].settledVolume)
        invariant Trades(start, assets, m, id, p, room, ls, ts, last) && last == Records()
        invariant settled == bits[m].settledVolume + Units(ts)
        decreases cap - settled
      {
        ghost var before := Records();
        ProcessedHolds(start, before, m, id, settled, cap);
        EasesRequest(start, before, id);
        SaneOf(before);
        SaneRequest(before, id);
        QuotesLess(start, before, m, start.settles[id].balance.n, before.settles[id].balance.n, p);
        CancelEases(before, id);
        CancelRefunds(before, id);
        if settles[id].balance.n == 0 {
          ProcessedCancel(start, before, m, id, settled, cap);
          EasesTrans(start, before, CancelSettle(before, id));
          StopsCancelled(before, m, id, p, cap - settled);
          CancelSettlement(id);
          return true, settled, ls, ts, last;
        }
        var r, call, traded := SettleOnce(m, id, p, cap - settled);
        if r == Thrown {
          return false, settled, ls, ts, last;
        }
        if r == Swan {
          ProcessedCancel(start, before, m, id, settled, cap);
          EasesTrans(start, before, CancelSettle(before, id));
          StopsCancelled(before, m, id, p, cap - settled);
          CancelSettlement(id);
          return true, settled, ls, ts, last;
        }
        EasesTrans(start, before, Records());
        ProcessedTrade(start, before, Records(), m, id, settled, traded, cap);
        TradesNext(start, assets, m, id, p, room, ls, ts, last, Deal(call, traded), Records());
        UnitsSnoc(ts, Deal(call, traded));
        ls, ts, last := ls + [Records()], ts + [Deal(call, traded)], Records();
        settled := settled + traded;
      }
      ProcessedHolds(start, Records(), m, id, settled, cap);
      StopsTraded(Records(), m, id, p, cap - settled);
      ok := true;
    }

    /** lower_bound of the settlement index. */
    method LowerBound(bound: AssetId) returns (r: Option<OrderId>)
      ensures r.None? ==> forall id <- settles :: settles[id].balance.asset < bound
      ensures r.Some? ==> r.value in settles && settles[r.value].balance.asset >= bound
      ensures r.Some? ==> forall id <- settles ::
        settles[id].balance.asset >= bound ==> Precedes(settles[r.value], r.value, settles[id], id)
    {
      r := None;
      var rest := settles.Keys;
      while rest != {}
        invariant rest <= settles.Keys
        invariant r.None? ==> forall id <- settles :: id in rest || settles[id].balance.asset < bound
        invariant r.Some? ==> r.value in settles && settles[r.value].balance.asset >= bound
        invariant r.Some? ==> forall id <- settles ::
          id in rest || settles[id].balance.asset < bound || Precedes(settles[r.value], r.value, settles[id], id)
        decreases |rest|
      {
        var id :| id in rest;
        rest := rest - {id};
        if settles[id].balance.asset >= bound && (r.None? || !Precedes(settles[r.value], r.value, settles[id], id)) {
          r := Some(id);
        }
      }
    }

    /** The rest of an iteration of clear_expired_orders once an order is to be settled, and when exactly it throws. */
    method ProcessSettlement(m: AssetId, id: OrderId, cap: int) returns (ok: bool)
      requires Invariant(Records()) && SaneAssets(assets) && m in bits && bits[m].settlement.None? && bits[m].feed.Some?
      requires id in settles && settles[id].balance.asset == m && bits[m].settledVolume < cap == Cap(Records(), m)
      modifies this
      ensures ok <==> Settleable(old(Records()), m, id)
      ensures ok ==> Eases(old(Records()), Records())
      ensures ok ==> Invariant(Records()) && Conserves(old(Records()), Records())
      ensures ok ==> Advances(old(Records()), Records(), m, id, cap)
      ensures ok ==> RequestServed(old(Records()), assets, m, id, cap, Records())
    {
      hide Sane, Covered, Gap, Times, Get, SaneAssets, MaxVolume, AllBacked, Eases, Trades, Stops, Units, RequestServed;
      ghost var before := Records();
      SaneFeed(before, m);
      SaneBitOf(before, m);
      SupplyNonNegative(before, m);
      MaxVolumeWithin(bits[m], Get(supply, m));
      SaneRequest(before, id);
      var pays := settles[id].balance;
      var worth := Times(pays, bits[m].feed.value);
      if worth.None? {
        return false;
      }
      TimesNonNegative(pays, bits[m].feed.value);
      FloorNonNegative(worth.value.n, FULL_PERCENT - bits[m].offsetPercent, FULL_PERCENT);
      var receives := Amount(worth.value.n * (FULL_PERCENT - bits[m].offsetPercent) / FULL_PERCENT, worth.value.asset);
      OffsetFits(pays, bits[m].feed.value, bits[m].offsetPercent);
      OfferIs(pays, bits[m]);
      var settled;
      ghost var ls, ts, last;
      ok, settled, ls, ts, last := SettleOrderAgainstCalls(m, id, Price(pays, receives), cap);
      if ok {
        VolumeKeeps(Records(), m, settled);
        VolumeEases(Records(), m, settled);
        EasesTrans(before, Records(), PutBit(Records(), m, bits[m].(settledVolume := settled)));
        ServedIntro(before, assets, m, id, cap, Price(pays, receives), ls, ts, last, Records(), settled);
        bits := bits[m := bits[m].(settledVolume := settled)];
      }
    }

    /** next_asset: the asset of the first request beyond the current asset. */
    method NextAsset(current: AssetId, ghost now: nat) returns (found: bool, next: AssetId)
      requires ServedBelow(Records(), current + 1, now)
      ensures found ==> next > current && ServedBelow(Records(), next, now)
      ensures !found ==> next > current && ServedBelow(Records(), next, now)
      ensures !found ==> forall id <- settles :: settles[id].balance.asset < next
    {
      hide Served;
      var bound := LowerBound(current + 1);
      if bound.None? {
        return false, current + 1;
      }
      return true, settles[bound.value].balance.asset;
    }

    /** Cancels a request that can no longer be settled. */
    method DropRequest(m: AssetId, id: OrderId, c: Cursor, ghost capped: set<AssetId>, ghost start: Ledger, now: nat)
      requires Scanning(start, Records(), c.(current := m), capped, now) && id in settles
      requires settles[id].balance.asset == m
      modifies this
      ensures Scanning(start, Records(), c.(current := m), capped, now)
      ensures |Ahead(settles, m)| < |old(Ahead(settles, m))| && bits == old(bits) && Eases(old(Records()), Records())
      ensures Refunded(old(Records()), id, Records())
    {
      hide Invariant, Conserves, WithinCaps, MaxVolume, Adjust, Served, Eases, Refunded;
      ghost var before := Records();
      SaneOf(before);
      SettleCancelKeeps(before, id);
      CancelSettlement(id);
      CancelEases(before, id);
      CancelRefunds(before, id);
      WithinCapsSame(start, before, Records());
      ConservesTrans(start, before, Records());
      AheadShrinks(before.settles, m, settles, m, id);
      ServedSame(before, Records(), m, id, now);
    }

    /** One settlement of the outer loop: the request is gone, or its asset joins the capped ones. */
    method ServeRequest(m: AssetId, id: OrderId, c: Cursor, ghost capped: set<AssetId>, ghost start: Ledger, now: nat)
      returns (ok: bool, ghost capped': set<AssetId>)
      requires Scanning(start, Records(), c, capped, now) && SaneAssets(assets) && c.current == c.capAsset == m
      requires m in bits && m != CORE && bits[m].settlement.None? && bits[m].feed.Some? && bits[m].settledVolume < c.cap
      requires id in settles && settles[id].balance.asset == m
      modifies this
      ensures ok <==> Settleable(old(Records()), m, id)
      ensures ok ==> RequestServed(old(Records()), assets, m, id, c.cap, Records())
      ensures ok ==> Scanning(start, Records(), c, capped', now) && bits.Keys == old(bits.Keys)
      ensures ok ==> Eases(old(Records()), Records())
      ensures ok ==> Closer(|Ahead(settles, m)|, |bits.Keys - capped'|, |old(Ahead(settles, m))|, |bits.Keys - capped|)
    {
      hide Invariant, Conserves, WithinCaps, MaxVolume, Served, SaneAssets, Get, Eases, Settleable, RequestServed;
      ghost var before := Records();
      capped' := capped;
      ok := ProcessSettlement(m, id, c.cap);
      if !ok {
        return;
      }
      ConservesTrans(start, before, Records());
      WithinCapsStep(start, before, Records(), m, id);
      CapsAfter(before, Records(), m, id);
      ServedAdvance(before, Records(), m, id, now);
      if id !in settles {
        AheadShrinks(before.settles, m, settles, m, id);
      } else {
        capped' := capped + {m};
        SmallerSet(bits.Keys - capped', bits.Keys - capped, m);
        AheadSame(before.settles, settles, m, id);
      }
    }

    /** The part of a pass that looks at the cap of the asset. */
    method ServeOrSkip(m: AssetId, id: OrderId, c: Cursor, ghost capped: set<AssetId>, ghost start: Ledger, now: nat)
      returns (ok: bool, more: bool, c': Cursor, ghost capped': set<AssetId>, ghost moved: bool)
      requires Scanning(start, Records(), c, capped, now) && SaneAssets(assets) && c.current == m
      requires m in bits && m != CORE && bits[m].settlement.None? && bits[m].feed.Some?
      requires id in settles && settles[id].balance.asset == m && IsNext(Records(), id) && settles[id].date <= now
      modifies this
      ensures Untroubled(old(Records())) ==> ok
      ensures ok && moved ==> Pass(old(Records()), assets, now, Records())
      ensures ok && !moved ==> Records() == old(Records())
      ensures !ok ==> Throws(old(Records()), now)
      ensures ok ==> Scanning(start, Records(), c', capped', now) && bits.Keys == old(bits.Keys)
      ensures ok ==> Eases(old(Records()), Records())
      ensures ok && !more ==> forall id <- settles :: settles[id].balance.asset < c'.current
      ensures ok && more ==> Closer(|Ahead(settles, c'.current)|, |bits.Keys - capped'|,
                                    |old(Ahead(settles, m))|, |bits.Keys - capped|)
    {
      hide Invariant, Conserves, WithinCaps, MaxVolume, Served, SaneAssets, Get, Eases, Settleable, Untroubled;
      hide IsNext, Pass, Throws, RequestServed;
      EasesSame(Records());
      ok, more, c', capped', moved := true, true, c, capped, false;
      if c.capAsset != m {
        c' := Cursor(m, m, MaxVolume(bits[m], Get(supply, m)));
      }
      if bits[m].settledVolume >= c'.cap {
        ServedCapped(Records(), m, now);
        var next;
        more, next := NextAsset(m, now);
        AheadPast(settles, m, next, id);
        c' := c'.(current := next);
        return;
      }
      if Untroubled(Records()) {
        UntroubledSettles(Records(), m, id);
      }
      ghost var before := Records();
      ok, capped' := ServeRequest(m, id, c', capped, start, now);
      if ok {
        PassServed(before, assets, now, id, Records());
        moved := true;
      } else {
        ThrowsNow(before, now, id);
      }
    }

    /** One pass of the outer loop of clear_expired_orders. */
    method NextRequest(c: Cursor, ghost capped: set<AssetId>, ghost start: Ledger, now: nat)
      returns (ok: bool, more: bool, c': Cursor, ghost capped': set<AssetId>, ghost moved: bool)
      requires Scanning(start, Records(), c, capped, now) && SaneAssets(assets)
      modifies this
      ensures Untroubled(old(Records())) ==> ok
      ensures ok && moved ==> Pass(old(Records()), assets, now, Records())
      ensures ok && !moved ==> Records() == old(Records())
      ensures !ok ==> Throws(old(Records()), now)
      ensures ok ==> Scanning(start, Records(), c', capped', now) && bits.Keys == old(bits.Keys)
      ensures ok ==> Eases(old(Records()), Records())
      ensures ok && !more ==> forall id <- settles :: settles[id].balance.asset < c'.current
      ensures ok && more ==> Closer(|Ahead(settles, c'.current)|, |bits.Keys - capped'|,
                                    |old(Ahead(settles, c.current))|, |bits.Keys - capped|)
    {
      hide Invariant, Conserves, WithinCaps, MaxVolume, Served, SaneAssets, Get, Eases, Settleable, Untroubled;
      hide IsNext, Pass, Throws, Refunded;
      EasesSame(Records());
      ok, more, c', capped', moved := true, true, c, capped, false;
      var found := LowerBound(c.current);
      if found.None? {
        more := false;
        return;
      }
      var id := found.value;
      var m := settles[id].balance.asset;
      c' := c.(current := m);
      SaneOf(Records());
      SaneRequest(Records(), id);
      SaneBitOf(Records(), m);
      IsNextOf(Records(), id, c.current);
      ghost var before := Records();
      assert Ahead(settles, m) == Ahead(settles, c.current);
      if bits[m].settlement.Some? {
        DropRequest(m, id, c', capped, start, now);
        PassDropped(before, assets, now, id, Records());
        moved := true;
        return;
      }
      if settles[id].date > now {
        ServedLater(Records(), m, id, now);
        more, m := NextAsset(m, now);
        AheadPast(settles, c.current, m, id);
        c' := c.(current := m);
        return;
      }
      if bits[m].feed.None? {
        DropRequest(m, id, c', capped, start, now);
        PassDropped(before, assets, now, id, Records());
        moved := true;
        return;
      }
      ok, more, c', capped', moved := ServeOrSkip(m, id, c', capped, start, now);
    }

    /**
     * The settlement part of clear_expired_orders: it terminates, moves no asset's holdings but with its supply,
     * keeps every asset within its cap, and leaves no expired request that could still be served. It does not throw as
     * long as no request is worth too much at its feed and every call order has collateral. hs are the ledgers between
     * the requests: each is served at its own price, or given back.
     */
    method ClearExpiredSettlements(now: nat) returns (ok: bool, ghost hs: seq<Ledger>, ghost last: Ledger)
      requires Invariant(Records()) && SaneAssets(assets)
      modifies this
      ensures ok ==> Invariant(Records()) && Conserves(old(Records()), Records())
      ensures ok ==> WithinCaps(old(Records()), Records())
      ensures ok ==> forall id <- settles :: Served(Records(), id, now)
      ensures Untroubled(old(Records())) ==> ok
      ensures History(old(Records()), assets, now, hs, last) && if ok then last == Records() else Throws(last, now)
    {
      hide Invariant, WithinCaps, Served, SaneAssets, Conserves, Eases, Untroubled, Pass, Throws, History, Scanning;
      EasesSame(Records());
      HistoryStart(Records(), assets, now);
      ghost var start := Records();
      hs, last := [start], start;
      ScanningStart(start, now);
      var first := LowerBound(0);
      if first.Some? {
        ScanningFirst(start, settles[first.value].balance.asset, now);
      }
      var c, more := Cursor(if first.None? then 0 else settles[first.value].balance.asset, CORE, 0), first.Some?;
      ghost var capped: set<AssetId> := {};
      ok := true;
      while more
        invariant ok && Scanning(start, Records(), c, capped, now) && Eases(start, Records())
        invariant History(start, assets, now, hs, last) && last == Records()
        invariant !more ==> forall id <- settles :: settles[id].balance.asset < c.current
        decreases more, |Ahead(settles, c.current)|, |bits.Keys - capped|
      {
        if Untroubled(start) {
          ScanningSane(start, last, c, capped, now);
          EasesUntroubled(start, last);
        }
        ghost var moved;
        ok, more, c, capped, moved := NextRequest(c, capped, start, now);
        if !ok {
          return;
        }
        EasesTrans(start, last, Records());
        if moved {
          HistoryNext(start, assets, now, hs, last, Records());
          hs := hs + [Records()];
        }
        last := Records();
      }
      ScanningDone(start, Records(), c, capped, now);
    }
  }
}
