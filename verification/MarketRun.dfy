/**
 * The market invariant, and runs of market operations.
 */
module MarketRun {
  import opened Wrappers
  import opened MapSum
  import opened Ledger
  import opened MarketSpec
  import opened Floors
  import opened MarketLaws
  import Arith

  type Assets = map<AssetId, AssetOptions>

  predicate SaneAssets(assets: Assets) {
    forall a <- assets :: assets[a].feePercent <= FULL_PERCENT
  }

  predicate SaneLimit(o: LimitOrder) {
    && o.forSale > 0 && o.deferredFee >= 0
    && o.sellPrice.base.n > 0 && o.sellPrice.quote.n > 0 && o.sellPrice.base.asset != o.sellPrice.quote.asset
  }

  predicate SaneCall(o: CallOrder, bits: map<AssetId, Bitasset>) {
    && o.debt > 0 && o.collateral >= 0 && o.Debt().asset in bits
    && bits[o.Debt().asset].settlement.None? && bits[o.Debt().asset].backing == o.Collateral().asset
    && o.callPrice.base.n > 0 && o.callPrice.quote.n > 0
  }

  predicate SaneBit(m: AssetId, b: Bitasset) {
    && m != CORE && b.backing != m && b.fund >= 0 && b.settledVolume >= 0
    && b.offsetPercent <= FULL_PERCENT && b.volumePercent <= FULL_PERCENT
    && (b.feed.Some? ==> b.feed.value.base.n > 0 && b.feed.value.quote.n > 0
                         && b.feed.value.base.asset == m && b.feed.value.quote.asset == b.backing)
    && match b.settlement
       case None => b.fund == 0
       case Some(p) => p.base.asset == m && p.quote.asset == b.backing && p.base.n >= 0 && p.quote.n >= 0
  }

  predicate NonNegative<K>(m: map<K, int>) {
    forall k <- m :: m[k] >= 0
  }

  predicate SaneLimits(limits: map<OrderId, LimitOrder>) {
    forall id <- limits :: SaneLimit(limits[id])
  }

  predicate SaneCalls(calls: map<OrderId, CallOrder>, bits: map<AssetId, Bitasset>) {
    forall id <- calls :: SaneCall(calls[id], bits)
  }

  predicate SaneSettles(settles: map<OrderId, SettleOrder>, bits: map<AssetId, Bitasset>) {
    forall id <- settles :: settles[id].balance.n >= 0 && settles[id].balance.asset in bits
  }

  predicate SaneBits(bits: map<AssetId, Bitasset>) {
    forall m <- bits :: SaneBit(m, bits[m])
  }

  /** No record is negative, and orders, call orders and market-issued assets agree on their assets. */
  predicate Sane(l: Ledger) {
    && NonNegative(l.balances) && NonNegative(l.fees) && NonNegative(l.pending)
    && SaneLimits(l.limits) && SaneCalls(l.calls, l.bits) && SaneSettles(l.settles, l.bits) && SaneBits(l.bits)
  }

  /**
   * A market-issued asset: the market holds no more of it than its supply; until a global settlement its call
   * debts are its supply; afterwards the fund covers the supply left at the settlement price S0 : F0.
   */
  ghost predicate Covered(l: Ledger, m: AssetId)
    requires m in l.bits
  {
    && Gap(l, m) <= 0
    && match l.bits[m].settlement
       case None => DebtTotal(l, m) == Get(l.supply, m)
       case Some(p) => l.bits[m].fund * p.base.n >= Get(l.supply, m) * p.quote.n && Get(l.supply, m) <= p.base.n
  }

  ghost predicate Invariant(l: Ledger) {
    Sane(l) && forall m <- l.bits :: Covered(l, m)
  }

  // ---- each fill keeps the records sane ----

  lemma CreditSane(l: Ledger, who: Account, x: Amount)
    requires Sane(l) && Get(l.balances, Holder(who, x.asset)) + x.n >= 0
    ensures Sane(Credit(l, who, x))
  {
    hide SaneLimits, SaneCalls, SaneSettles, SaneBits;
  }

  lemma PayOutSane(l: Ledger, assets: Assets, who: Account, x: Amount)
    requires Sane(l) && SaneAssets(assets) && x.n >= 0
    ensures Sane(PayOut(l, assets, who, x))
  {
    hide SaneLimits, SaneCalls, SaneSettles, SaneBits, MarketFee;
    FeeIsPart(Options(assets, x.asset), x.n);
  }

  lemma CancelLimitSane(l: Ledger, id: OrderId)
    requires Sane(l) && id in l.limits
    ensures Sane(CancelLimit(l, id))
  {
    hide SaneCalls, SaneSettles, SaneBits;
    var o := l.limits[id];
    var l1 := Credit(l, o.seller, o.AmountForSale());
    CreditSane(l, o.seller, o.AmountForSale());
    CreditSane(l1, o.seller, Amount(o.deferredFee, CORE));
  }

  lemma CancelSettleSane(l: Ledger, id: OrderId)
    requires Sane(l) && id in l.settles
    ensures Sane(CancelSettle(l, id))
  {
    hide SaneCalls, SaneLimits, SaneBits;
    CreditSane(l, l.settles[id].owner, l.settles[id].balance);
  }

  lemma FillLimitSane(l: Ledger, assets: Assets, id: OrderId, pays: Amount, receives: Amount, cull: bool)
    requires Sane(l) && SaneAssets(assets) && id in l.limits && 0 <= pays.n <= l.limits[id].forSale && receives.n >= 0
    requires FillLimit(l, assets, id, pays, receives, cull).Some?
    ensures Sane(FillLimit(l, assets, id, pays, receives, cull).value.0)
  {
    hide SaneCalls, SaneSettles, SaneBits, Times, PayOut, CancelLimit;
    var o := l.limits[id];
    PayOutSane(l, assets, o.seller, receives);
    var paid := AddPending(PayOut(l, assets, o.seller, receives), o.seller, o.deferredFee);
    assert paid.limits == l.limits by { PayOutFrame(l, assets, o.seller, receives); }
    if pays.n < o.forSale {
      var shrunk := PutLimit(paid, id, o.(forSale := o.forSale - pays.n, deferredFee := 0));
      CancelLimitSane(shrunk, id);
    }
  }

  lemma PayOutFrame(l: Ledger, assets: Assets, who: Account, x: Amount)
    ensures var r := PayOut(l, assets, who, x);
      r == l.(balances := r.balances, fees := r.fees)
  {}

  lemma FillCallSane(l: Ledger, id: OrderId, pays: Amount, receives: Amount)
    requires Sane(l) && id in l.calls && 0 <= pays.n && 0 <= receives.n <= l.calls[id].debt
    requires FillCall(l, id, pays, receives).Some?
    ensures Sane(FillCall(l, id, pays, receives).value.0)
  {
    hide SaneLimits, SaneSettles, SaneBits, Adjust;
    var o := l.calls[id];
    var burned := Mint(l, Amount(-receives.n, receives.asset));
    assert Sane(burned);
    CreditSane(burned, o.borrower, Amount(o.collateral - pays.n, o.Collateral().asset));
  }

  lemma FillSettleSane(l: Ledger, assets: Assets, id: OrderId, pays: Amount, receives: Amount)
    requires Sane(l) && SaneAssets(assets) && id in l.settles && receives.n >= 0
    ensures Sane(FillSettle(l, assets, id, pays, receives).0)
  {
    hide SaneLimits, SaneCalls, SaneBits, PayOut;
    PayOutSane(l, assets, l.settles[id].owner, receives);
    PayOutFrame(l, assets, l.settles[id].owner, receives);
  }

  // ---- each operation keeps the invariant ----

  /** Every asset's holdings move only with its supply. */
  ghost predicate Conserves(l: Ledger, l': Ledger) {
    forall a :: Gap(l', a) == Gap(l, a)
  }

  /** n units of m and of the debt in m are gone. */
  ghost predicate Burns(l: Ledger, l': Ledger, m: AssetId, n: int) {
    && l'.bits == l.bits
    && (forall a :: Get(l'.supply, a) == Get(l.supply, a) - If(a == m, n))
    && (forall a :: DebtTotal(l', a) == DebtTotal(l, a) - If(a == m, n))
  }

  lemma BurnKeeps(l: Ledger, l': Ledger, m: AssetId, n: int)
    requires Invariant(l) && Sane(l') && Conserves(l, l') && Burns(l, l', m, n)
    requires n == 0 || (m in l.bits && l.bits[m].settlement.None?)
    ensures Invariant(l')
  {
    hide Sane, Gap, DebtTotal, Get;
    forall x <- l'.bits ensures Covered(l', x) {
      assert Covered(l, x);
    }
  }

  lemma FillLimitFrame(l: Ledger, assets: Assets, id: OrderId, pays: Amount, receives: Amount, cull: bool)
    requires id in l.limits && FillLimit(l, assets, id, pays, receives, cull).Some?
    ensures var r := FillLimit(l, assets, id, pays, receives, cull).value.0;
      && r == l.(balances := r.balances, fees := r.fees, pending := r.pending, limits := r.limits)
      && forall j :: j != id ==> (j in r.limits <==> j in l.limits) && (j in l.limits ==> r.limits[j] == l.limits[j])
  {
    hide FillLimit;
    FillLimitFields(l, assets, id, pays, receives, cull);
    FillLimitOthers(l, assets, id, pays, receives, cull);
  }

  lemma FillLimitFields(l: Ledger, assets: Assets, id: OrderId, pays: Amount, receives: Amount, cull: bool)
    requires id in l.limits && FillLimit(l, assets, id, pays, receives, cull).Some?
    ensures var r := FillLimit(l, assets, id, pays, receives, cull).value.0;
      r == l.(balances := r.balances, fees := r.fees, pending := r.pending, limits := r.limits)
  {
    hide Times, MarketFee, Options, Adjust;
  }

  lemma FillLimitOthers(l: Ledger, assets: Assets, id: OrderId, pays: Amount, receives: Amount, cull: bool)
    requires id in l.limits && FillLimit(l, assets, id, pays, receives, cull).Some?
    ensures var r := FillLimit(l, assets, id, pays, receives, cull).value.0;
      forall j :: j != id ==> (j in r.limits <==> j in l.limits) && (j in l.limits ==> r.limits[j] == l.limits[j])
  {
    hide Times, MarketFee, Options, Adjust;
  }

  lemma FillCallFrame(l: Ledger, id: OrderId, pays: Amount, receives: Amount)
    requires id in l.calls && FillCall(l, id, pays, receives).Some?
    ensures var (r, done) := FillCall(l, id, pays, receives).value;
      && r == l.(balances := r.balances, calls := r.calls, supply := r.supply)
      && r.calls == (if done then l.calls - {id} else l.calls[id := r.calls[id]])
      && (done <==> l.calls[id].debt == receives.n)
  {
    hide Adjust;
  }

  lemma FillSettleFrame(l: Ledger, assets: Assets, id: OrderId, pays: Amount, receives: Amount)
    requires id in l.settles
    ensures var (r, done) := FillSettle(l, assets, id, pays, receives);
      && r == l.(balances := r.balances, fees := r.fees, settles := r.settles)
      && r.settles == (if done then l.settles - {id}
         else l.settles[id := l.settles[id].(balance :=
                Amount(l.settles[id].balance.n - pays.n, l.settles[id].balance.asset))])
      && (done <==> pays.n >= l.settles[id].balance.n)
  {
    hide Adjust, MarketFee, Options;
  }

  lemma MatchLimitsKeeps(l: Ledger, assets: Assets, usd: OrderId, core: OrderId)
    requires Invariant(l) && SaneAssets(assets) && usd in l.limits && core in l.limits
    requires Opposed(l, usd, core, l.limits[core].sellPrice)
    requires MatchLimits(l, assets, usd, core, l.limits[core].sellPrice).Some?
    ensures var (r, usdDone, coreDone) := MatchLimits(l, assets, usd, core, l.limits[core].sellPrice).value;
      Invariant(r) && Conserves(l, r) && r.bits == l.bits && (usdDone || coreDone)
  {
    hide Gap, DebtTotal, FillLimit, MatchAmounts, Sane;
    var p := l.limits[core].sellPrice;
    assert SaneLimit(l.limits[usd]) && SaneLimit(l.limits[core]) by { SaneOrders(l, usd, core); }
    MatchIsFair(l.limits[usd].AmountForSale(), l.limits[core].AmountForSale(), p);
    var (usdPays, corePays) := MatchAmounts(l.limits[usd].AmountForSale(), l.limits[core].AmountForSale(), p).value;
    var (l1, usdDone) := FillLimit(l, assets, usd, usdPays, corePays, false).value;
    FillLimitFrame(l, assets, usd, usdPays, corePays, false);
    var (l2, coreDone) := FillLimit(l1, assets, core, corePays, usdPays, true).value;
    FillLimitFrame(l1, assets, core, corePays, usdPays, true);
    FillLimitSane(l, assets, usd, usdPays, corePays, false);
    FillLimitSane(l1, assets, core, corePays, usdPays, true);
    FillLimitDone(l, assets, usd, usdPays, corePays, false);
    FillLimitDone(l1, assets, core, corePays, usdPays, true);
    forall a ensures Gap(l2, a) == Gap(l, a) {
      FillLimitMoves(l, assets, usd, usdPays, corePays, false, a);
      FillLimitMoves(l1, assets, core, corePays, usdPays, true, a);
    }
    SameDebt(l, l2);
    BurnKeeps(l, l2, 0, 0);
  }

  lemma SaneOrders(l: Ledger, x: OrderId, y: OrderId)
    requires Sane(l) && x in l.limits && y in l.limits
    ensures SaneLimit(l.limits[x]) && SaneLimit(l.limits[y])
  {}

  lemma FillLimitDone(l: Ledger, assets: Assets, id: OrderId, pays: Amount, receives: Amount, cull: bool)
    requires id in l.limits && FillLimit(l, assets, id, pays, receives, cull).Some?
    ensures pays.n == l.limits[id].forSale ==> FillLimit(l, assets, id, pays, receives, cull).value.1
  {
    hide Times, PayOut, CancelLimit;
  }

  lemma SameDebt(l: Ledger, l': Ledger)
    requires l'.calls == l.calls && l'.supply == l.supply && l'.bits == l.bits
    ensures Burns(l, l', 0, 0)
  {
    hide DebtTotal;
    forall a ensures DebtTotal(l', a) == DebtTotal(l, a) {
      DebtOfCalls(l, l', a);
    }
  }

  lemma MarginCallKeeps(l: Ledger, assets: Assets, call: OrderId, bid: OrderId)
    requires Invariant(l) && SaneAssets(assets) && call in l.calls && bid in l.limits
    requires MarginCall(l, assets, call, bid).Some?
    ensures var (r, callDone, bidDone) := MarginCall(l, assets, call, bid).value;
      Invariant(r) && Conserves(l, r) && r.bits == l.bits && (callDone || bidDone)
  {
    hide Gap, DebtTotal, Get, FillLimit, FillCall, Times, Sane;
    var c, o := l.calls[call], l.limits[bid];
    SaneOrders(l, bid, bid);
    SaneCallOrder(l, call);
    var traded := Amount(Min(c.debt, o.forSale), c.Debt().asset);
    var price := Times(traded, o.sellPrice).value;
    TimesNonNegative(traded, o.sellPrice);
    FillCallFrame(l, call, price, traded);
    var (l1, callDone) := FillCall(l, call, price, traded).value;
    FillCallSane(l, call, price, traded);
    FillLimitFrame(l1, assets, bid, traded, price, true);
    FillLimitSane(l1, assets, bid, traded, price, true);
    FillLimitDone(l1, assets, bid, traded, price, true);
    var (l2, bidDone) := FillLimit(l1, assets, bid, traded, price, true).value;
    forall a ensures Gap(l2, a) == Gap(l, a) && DebtTotal(l2, a) == DebtTotal(l, a) - If(a == traded.asset, traded.n)
      && Get(l2.supply, a) == Get(l.supply, a) - If(a == traded.asset, traded.n)
    {
      FillCallMoves(l, call, price, traded, a);
      FillLimitMoves(l1, assets, bid, traded, price, true, a);
      DebtOfCalls(l1, l2, a);
    }
    BurnKeeps(l, l2, traded.asset, traded.n);
  }

  lemma SaneCallOrder(l: Ledger, id: OrderId)
    requires Sane(l) && id in l.calls
    ensures SaneCall(l.calls[id], l.bits) && l.bits[l.calls[id].Debt().asset].backing != l.calls[id].Debt().asset
  {}

  lemma SaneBitOf(l: Ledger, m: AssetId)
    requires Sane(l) && m in l.bits
    ensures SaneBit(m, l.bits[m])
  {}

  lemma SaneFeed(l: Ledger, m: AssetId)
    requires Sane(l) && m in l.bits && l.bits[m].feed.Some?
    ensures SanePrice(l.bits[m].feed.value)
  {}

  lemma SaneBalances(l: Ledger)
    requires Sane(l)
    ensures NonNegative(l.balances)
  {}

  lemma SaneRequest(l: Ledger, id: OrderId)
    requires Sane(l) && id in l.settles
    ensures l.settles[id].balance.n >= 0 && l.settles[id].balance.asset in l.bits
  {}

  lemma SupplyNonNegative(l: Ledger, m: AssetId)
    requires Sane(l) && m in l.bits && Covered(l, m) && l.bits[m].settlement.None?
    ensures Get(l.supply, m) >= 0
  {
    hide Gap;
    SumNonNegative(l.calls, DebtIn(m));
  }

  lemma DebtOfCalls(l: Ledger, l': Ledger, a: AssetId)
    requires l'.calls == l.calls
    ensures DebtTotal(l', a) == DebtTotal(l, a)
  {}

  lemma TimesNonNegative(x: Amount, p: Price)
    requires x.n >= 0 && p.base.n >= 0 && p.quote.n >= 0 && Times(x, p).Some?
    ensures Times(x, p).value.n >= 0
  {
    if x.asset == p.base.asset {
      FloorNonNegative(x.n, p.quote.n, p.base.n);
    } else {
      FloorNonNegative(x.n, p.base.n, p.quote.n);
    }
  }

  lemma TermsFit(c: CallOrder, o: SettleOrder, p: Price, max: int)
    requires SettleTerms(c, o, p, max).Terms? && max >= 0 && SanePrice(p)
    ensures var t := SettleTerms(c, o, p, max);
      && t.units.n == Min(Min(o.balance.n, max), c.debt) >= 0 && (max > 0 ==> t.units.n > 0)
      && t.units.asset == c.Debt().asset == o.balance.asset && t.price.asset == c.Collateral().asset
      && 0 <= t.price.n < c.collateral && Times(t.units, p) == Some(t.price)
  {
    hide Times;
    TimesNonNegative(SettleTerms(c, o, p, max).units, p);
  }

  /** A force settlement trades no more than it may, and either finishes one of the two orders or reaches the cap. */
  lemma MatchSettleKeeps(l: Ledger, assets: Assets, call: OrderId, settle: OrderId, p: Price, max: int)
    requires Invariant(l) && SaneAssets(assets) && call in l.calls && settle in l.settles
    requires max >= 0 && SanePrice(p) && MatchSettle(l, assets, call, settle, p, max).Settled?
    ensures var r := MatchSettle(l, assets, call, settle, p, max);
      && Invariant(r.l) && Conserves(l, r.l) && Burns(l, r.l, l.calls[call].Debt().asset, r.n)
      && 0 <= r.n <= max && r.n <= l.settles[settle].balance.n && (max > 0 ==> r.n > 0)
      && (call !in r.l.calls || settle !in r.l.settles || r.n == max)
  {
    hide Gap, DebtTotal, Get, FillSettle, FillCall, SettleTerms, Sane;
    var c, o := l.calls[call], l.settles[settle];
    SaneCallOrder(l, call);
    var traded, price := SettleTerms(c, o, p, max).units, SettleTerms(c, o, p, max).price;
    TermsFit(c, o, p, max);
    FillCallFrame(l, call, price, traded);
    var (l1, callDone) := FillCall(l, call, price, traded).value;
    FillCallSane(l, call, price, traded);
    FillSettleFrame(l1, assets, settle, traded, price);
    FillSettleSane(l1, assets, settle, traded, price);
    var l2 := FillSettle(l1, assets, settle, traded, price).0;
    forall a ensures Gap(l2, a) == Gap(l, a) && DebtTotal(l2, a) == DebtTotal(l, a) - If(a == traded.asset, traded.n)
      && Get(l2.supply, a) == Get(l.supply, a) - If(a == traded.asset, traded.n)
    {
      FillCallMoves(l, call, price, traded, a);
      FillSettleMoves(l1, assets, settle, traded, price, a);
      DebtOfCalls(l1, l2, a);
    }
    BurnKeeps(l, l2, traded.asset, traded.n);
  }

  lemma MatchSettleFrame(l: Ledger, assets: Assets, call: OrderId, settle: OrderId, p: Price, max: int)
    requires call in l.calls && settle in l.settles && MatchSettle(l, assets, call, settle, p, max).Settled?
    ensures var r := MatchSettle(l, assets, call, settle, p, max).l;
      r.settles - {settle} == l.settles - {settle}
      && (settle in r.settles ==> r.settles[settle].balance.asset == l.settles[settle].balance.asset)
  {
    hide FillSettle, FillCall, SettleTerms;
    var terms := SettleTerms(l.calls[call], l.settles[settle], p, max);
    var traded, price := terms.units, terms.price;
    FillCallFrame(l, call, price, traded);
    FillSettleFrame(FillCall(l, call, price, traded).value.0, assets, settle, traded, price);
  }

  lemma SettleCancelKeeps(l: Ledger, id: OrderId)
    requires Invariant(l) && id in l.settles
    ensures Invariant(CancelSettle(l, id)) && Conserves(l, CancelSettle(l, id))
  {
    hide Sane, Gap, Adjust, Covered;
    CancelSettleSane(l, id);
    forall a ensures Gap(CancelSettle(l, id), a) == Gap(l, a) { CancelSettleMoves(l, id, a); }
    CancelsKeep(l, CancelSettle(l, id));
  }

  lemma VolumeKeeps(l: Ledger, m: AssetId, volume: int)
    requires Invariant(l) && m in l.bits && volume >= 0
    ensures var r := PutBit(l, m, l.bits[m].(settledVolume := volume)); Invariant(r) && Conserves(l, r)
  {
    hide Gap, DebtTotal, Get;
    var b := l.bits[m].(settledVolume := volume);
    var r := PutBit(l, m, b);
    VolumeSane(l, m, volume);
    forall a ensures Gap(r, a) == Gap(l, a) {
      PutBitMoves(l, m, b, a);
    }
    forall x <- r.bits ensures Covered(r, x) {
      assert Covered(l, x);
      DebtOfCalls(l, r, x);
    }
  }

  lemma VolumeSane(l: Ledger, m: AssetId, volume: int)
    requires Sane(l) && m in l.bits && volume >= 0
    ensures Sane(PutBit(l, m, l.bits[m].(settledVolume := volume)))
  {
    hide NonNegative, SaneLimits;
    var bits := l.bits[m := l.bits[m].(settledVolume := volume)];
    assert SaneBits(bits);
    forall id <- l.calls ensures SaneCall(l.calls[id], bits) {
      assert SaneCall(l.calls[id], l.bits);
    }
  }

  // ---- global settlement ----

  ghost predicate Closed(l: Ledger, r: Ledger, m: AssetId, before: int, after: int, a: AssetId)
    requires m in l.bits
  {
    && Gap(r, a) + Get(r.supply, a) == Gap(l, a) + Get(l.supply, a) - If(a == l.bits[m].backing, after - before)
    && (a != m ==> Get(r.supply, a) == Get(l.supply, a) && DebtTotal(r, a) == DebtTotal(l, a))
  }

  lemma CloseOne(l: Ledger, m: AssetId, id: OrderId, pays: Amount, before: int, a: AssetId)
    requires m in l.bits && id in l.calls && l.calls[id].Debt().asset == m && pays.asset == l.bits[m].backing
    requires FillCall(l, id, pays, l.calls[id].Debt()).Some?
    ensures Closed(l, FillCall(l, id, pays, l.calls[id].Debt()).value.0, m, before, before + pays.n, a)
  {
    hide Gap, DebtTotal, Get, FillCall;
    FillCallMoves(l, id, pays, l.calls[id].Debt(), a);
  }

  lemma ListsTail(l: Ledger, m: AssetId, ids: seq<OrderId>, r: Ledger)
    requires Lists(l, m, ids) && |ids| > 0 && r.calls == l.calls - {ids[0]}
    ensures Lists(r, m, ids[1..])
  {
    forall id <- r.calls | r.calls[id].Debt().asset == m ensures id in ids[1..] {
      assert id in ids;
    }
  }

  lemma {:induction false} CloseCallsKeeps(l: Ledger, m: AssetId, ids: seq<OrderId>, p: Price, gathered: int)
    requires Sane(l) && m in l.bits && Lists(l, m, ids) && p.base.n >= 0 && p.quote.n >= 0
    requires CloseCalls(l, ids, p, gathered).Some?
    ensures var (r, g) := CloseCalls(l, ids, p, gathered).value;
      Sane(r) && r.bits == l.bits && Lists(r, m, []) && g >= gathered && forall a :: Closed(l, r, m, gathered, g, a)
    decreases |ids|
  {
    hide Gap, DebtTotal, Get, FillCall, Times, Sane;
    if ids != [] {
      var o := l.calls[ids[0]];
      SaneCallOrder(l, ids[0]);
      var worth := Times(o.Debt(), p).value;
      TimesNonNegative(o.Debt(), p);
      var pays := Amount(Min(worth.n, o.collateral), worth.asset);
      FillCallFrame(l, ids[0], pays, o.Debt());
      FillCallSane(l, ids[0], pays, o.Debt());
      var l1 := FillCall(l, ids[0], pays, o.Debt()).value.0;
      ListsTail(l, m, ids, l1);
      CloseCallsKeeps(l1, m, ids[1..], p, gathered + pays.n);
      var (r, g) := CloseCalls(l1, ids[1..], p, gathered + pays.n).value;
      forall a ensures Closed(l, r, m, gathered, g, a) {
        CloseOne(l, m, ids[0], pays, gathered, a);
        assert Closed(l1, r, m, gathered + pays.n, g, a);
      }
    } else {
      forall a ensures Closed(l, l, m, gathered, gathered, a) {}
    }
  }

  lemma SettledGap(l: Ledger, l1: Ledger, m: AssetId, gathered: int, b: Bitasset, a: AssetId)
    requires m in l.bits && l1.bits == l.bits && Closed(l, l1, m, 0, gathered, a)
    requires b.backing == l.bits[m].backing && b.fund == gathered && l.bits[m].fund == 0
    ensures Gap(SetSupply(PutBit(l1, m, b), m, Get(l.supply, m)), a) == Gap(l, a)
  {
    hide Gap, DebtTotal;
    PutBitMoves(l1, m, b, a);
    SetSupplyMoves(PutBit(l1, m, b), m, Get(l.supply, m), a);
  }

  lemma SettledSane(l1: Ledger, m: AssetId, b: Bitasset, n: int)
    requires Sane(l1) && m in l1.bits && SaneBit(m, b) && Lists(l1, m, [])
    ensures Sane(SetSupply(PutBit(l1, m, b), m, n))
  {
    hide NonNegative, SaneLimits;
    assert SaneBits(l1.bits[m := b]);
    forall id <- l1.calls ensures SaneCall(l1.calls[id], l1.bits[m := b]) {
      assert SaneCall(l1.calls[id], l1.bits);
    }
  }

  /** After a global settlement the fund holds exactly what the supply is worth at the new price. */
  lemma GlobalSettleKeeps(l: Ledger, m: AssetId, p: Price, ids: seq<OrderId>)
    requires Invariant(l) && m in l.bits && Lists(l, m, ids) && p.base.n >= 0 && p.quote.n >= 0
    requires GlobalSettle(l, m, p, ids).Some?
    ensures var r := GlobalSettle(l, m, p, ids).value;
      && Invariant(r) && Conserves(l, r) && Get(r.supply, m) == Get(l.supply, m)
      && r.bits[m].settlement == Some(Price(Amount(Get(l.supply, m), m), Amount(r.bits[m].fund, l.bits[m].backing)))
      && Lists(r, m, []) && l.bits[m].settlement.None? && r.bits == l.bits[m := r.bits[m]]
  {
    hide Gap, DebtTotal, CloseCalls, Sane;
    SaneBitOf(l, m);
    SupplyNonNegative(l, m);
    CloseCallsKeeps(l, m, ids, p, 0);
    var (l1, gathered) := CloseCalls(l, ids, p, 0).value;
    var r := GlobalSettle(l, m, p, ids).value;
    forall a ensures Gap(r, a) == Gap(l, a) {
      assert Closed(l, l1, m, 0, gathered, a);
      SettledGap(l, l1, m, gathered, r.bits[m], a);
    }
    SettledSane(l1, m, r.bits[m], Get(l.supply, m));
    forall x <- r.bits ensures Covered(r, x) {
      assert Closed(l, l1, m, 0, gathered, x) && Covered(l, x);
      DebtOfCalls(l1, r, x);
    }
  }

  // ---- redemption after a global settlement ----

  /** Nobody holds more of a market-issued asset than there is. */
  lemma HeldWithinSupply(l: Ledger, who: Account, m: AssetId)
    requires Sane(l) && m in l.bits && Covered(l, m)
    ensures Get(l.balances, Holder(who, m)) <= Get(l.supply, m) && 0 <= Get(l.supply, m)
  {
    hide Sum, DebtTotal, SaneCall, SaneBit, SaneLimit;
    HoldingsNonNegative(l, m);
    if Holder(who, m) in l.balances {
      SumAtLeast(l.balances, BalanceIn(m), Holder(who, m));
    }
  }

  lemma HoldingsNonNegative(l: Ledger, a: AssetId)
    requires Sane(l)
    ensures Sum(l.balances, BalanceIn(a)) >= 0 && Sum(l.limits, LimitIn(a)) >= 0 && Sum(l.calls, CollateralIn(a)) >= 0
    ensures Sum(l.settles, SettleIn(a)) >= 0 && Sum(l.bits, FundIn(a)) >= 0 && Sum(l.pending, PendingIn(a)) >= 0
    ensures Get(l.fees, a) >= 0
  {
    hide Sum;
    SumNonNegative(l.balances, BalanceIn(a));
    SumNonNegative(l.limits, LimitIn(a));
    SumNonNegative(l.calls, CollateralIn(a));
    SumNonNegative(l.settles, SettleIn(a));
    SumNonNegative(l.bits, FundIn(a));
    SumNonNegative(l.pending, PendingIn(a));
  }

  lemma ShareOfFund(x: int, supply: int, fund: int, s0: int, f0: int)
    requires 0 <= x <= supply && s0 > 0 && f0 >= 0 && fund * s0 >= supply * f0
    ensures x * f0 / s0 <= fund && (fund - x * f0 / s0) * s0 >= (supply - x) * f0
  {
    hide WithinOneUnit;
    var paid := x * f0 / s0;
    assert paid * s0 <= x * f0 by { FloorAtMost(x, f0, s0); }
    Arith.MulMono(x, supply, f0);
    assert (fund + 1) * s0 == fund * s0 + s0;
    LessByFactor(paid, fund, s0);
    assert (fund - paid) * s0 == fund * s0 - paid * s0;
    assert (supply - x) * f0 == supply * f0 - x * f0;
  }

  lemma FloorAtMost(p: int, num: int, den: int)
    requires den > 0
    ensures p * num / den * den <= p * num
  {
    FloorOf(p, num, den);
  }

  /** The fund pays every holder, whatever the order and the rounding of earlier redemptions. */
  lemma FundCoversHolder(l: Ledger, who: Account, x: Amount)
    requires Invariant(l) && x.asset in l.bits && l.bits[x.asset].settlement.Some?
    requires 0 <= x.n <= Get(l.balances, Holder(who, x.asset)) && Times(x, l.bits[x.asset].settlement.value).Some?
    ensures var b := l.bits[x.asset];
      var paid := Times(x, b.settlement.value).value;
      && 0 <= paid.n <= b.fund && paid.asset == b.backing
      && (b.fund - paid.n) * b.settlement.value.base.n >= (Get(l.supply, x.asset) - x.n) * b.settlement.value.quote.n
  {
    hide Gap, DebtTotal, Sane;
    var b := l.bits[x.asset];
    assert Covered(l, x.asset);
    SaneBitOf(l, x.asset);
    HeldWithinSupply(l, who, x.asset);
    TimesNonNegative(x, b.settlement.value);
    ShareOfFund(x.n, Get(l.supply, x.asset), b.fund, b.settlement.value.base.n, b.settlement.value.quote.n);
  }

  /** A redemption is refused only for want of a feed: the check against the fund never fails. */
  lemma RedemptionSucceeds(l: Ledger, who: Account, x: Amount, id: OrderId, date: nat)
    requires Invariant(l) && id !in l.settles && x.asset in l.bits && l.bits[x.asset].settlement.Some?
    requires 0 < x.n <= Get(l.balances, Holder(who, x.asset)) && l.bits[x.asset].fund <= MAX_SHARE_SUPPLY
    ensures Settle(l, who, x, id, date).Some? <==> l.bits[x.asset].prediction || l.bits[x.asset].feed.Some?
  {
    hide Gap, DebtTotal, Sane, Adjust, PutBit, Mint;
    var b := l.bits[x.asset];
    assert Covered(l, x.asset);
    SaneBitOf(l, x.asset);
    HeldWithinSupply(l, who, x.asset);
    ShareOfFund(x.n, Get(l.supply, x.asset), b.fund, b.settlement.value.base.n, b.settlement.value.quote.n);
  }

  /** An asset settled at 10 units for 20 of the core asset, held by account 7, whose feed has expired. */
  function Unfed(): Ledger {
    Ledger(map[Holder(7, 1) := 10], map[], map[], map[], map[1 := 10], map[], map[],
           map[1 := Bitasset(0, false, true, None, 0, 0, 0, Some(Price(Amount(10, 1), Amount(20, 0))), 20)])
  }

  /** The input: the holder of all ten units, covered by the fund, is refused. */
  lemma RedemptionRefusedExists()
    ensures Invariant(Unfed()) && Get(Unfed().balances, Holder(7, 1)) == 10
    ensures Settle(Unfed(), 7, Amount(10, 1), 3, 0).None?
  {
    hide Sum;
    var l := Unfed();
    SumRemove(l.balances, BalanceIn(1), Holder(7, 1));
    SumZero(l.balances - {Holder(7, 1)}, BalanceIn(1));
    SumZero(l.limits, LimitIn(1));
    SumZero(l.calls, CollateralIn(1));
    SumZero(l.settles, SettleIn(1));
    SumZero(l.bits, FundIn(1));
    SumZero(l.pending, PendingIn(1));
    assert Covered(l, 1);
  }

  lemma RedeemValue(l: Ledger, who: Account, x: Amount, id: OrderId, date: nat)
    requires id !in l.settles && x.asset in l.bits && l.bits[x.asset].settlement.Some?
    requires Settle(l, who, x, id, date).Some?
    ensures MaySettle(l, who, x) && Times(x, l.bits[x.asset].settlement.value).Some?
    ensures var b := l.bits[x.asset];
      var paid := Times(x, b.settlement.value).value;
      && paid.n <= b.fund
      && Settle(l, who, x, id, date).value == Mint(Credit(PutBit(Credit(l, who, Amount(-x.n, x.asset)), x.asset,
           b.(fund := b.fund - paid.n)), who, paid), Amount(-x.n, x.asset))
  {
    hide Times, Adjust, MaySettle;
  }

  lemma RedeemKeeps(l: Ledger, who: Account, x: Amount, id: OrderId, date: nat)
    requires Invariant(l) && id !in l.settles && x.asset in l.bits && l.bits[x.asset].settlement.Some?
    requires Settle(l, who, x, id, date).Some?
    ensures Invariant(Settle(l, who, x, id, date).value) && Conserves(l, Settle(l, who, x, id, date).value)
  {
    hide Gap, DebtTotal, Sane, Times, Adjust, Settle;
    RedeemValue(l, who, x, id, date);
    var m := x.asset;
    var b := l.bits[m];
    var paid := Times(x, b.settlement.value).value;
    FundCoversHolder(l, who, x);
    var b' := b.(fund := b.fund - paid.n);
    var taken := Credit(l, who, Amount(-x.n, m));
    var drawn := PutBit(taken, m, b');
    var given := Credit(drawn, who, paid);
    var r := Mint(given, Amount(-x.n, m));
    RedeemSane(l, who, x, b', paid);
    forall a ensures Gap(r, a) == Gap(l, a) {
      CreditMoves(l, who, Amount(-x.n, m), a);
      PutBitMoves(taken, m, b', a);
      CreditMoves(drawn, who, paid, a);
      MintMoves(given, Amount(-x.n, m), a);
    }
    forall k <- r.bits ensures Covered(r, k) {
      assert Covered(l, k);
      DebtOfCalls(l, r, k);
    }
  }

  lemma RedeemSane(l: Ledger, who: Account, x: Amount, b': Bitasset, paid: Amount)
    requires Sane(l) && x.asset in l.bits && 0 <= x.n <= Get(l.balances, Holder(who, x.asset)) && paid.n >= 0
    requires b'.fund >= 0 && b' == l.bits[x.asset].(fund := b'.fund) && l.bits[x.asset].settlement.Some?
    ensures var taken := Credit(l, who, Amount(-x.n, x.asset));
      Sane(Mint(Credit(PutBit(taken, x.asset, b'), who, paid), Amount(-x.n, x.asset)))
  {
    hide SaneLimits, NonNegative, Adjust;
    var taken := Credit(l, who, Amount(-x.n, x.asset));
    CreditSane(l, who, Amount(-x.n, x.asset));
    var drawn := PutBit(taken, x.asset, b');
    assert SaneBits(drawn.bits);
    assert SaneCalls(drawn.calls, drawn.bits);
    assert Sane(drawn);
    assert Get(drawn.balances, Holder(who, paid.asset)) >= 0 by { BalanceNonNegative(drawn, Holder(who, paid.asset)); }
    CreditSane(drawn, who, paid);
  }

  lemma BalanceNonNegative(l: Ledger, h: Holder)
    requires Sane(l)
    ensures Get(l.balances, h) >= 0
  {}

  lemma RequestKeeps(l: Ledger, who: Account, x: Amount, id: OrderId, date: nat)
    requires Invariant(l) && id !in l.settles && x.asset in l.bits && l.bits[x.asset].settlement.None?
    requires Settle(l, who, x, id, date).Some?
    ensures Invariant(Settle(l, who, x, id, date).value) && Conserves(l, Settle(l, who, x, id, date).value)
  {
    hide Gap, DebtTotal, Adjust, SaneLimits, SaneCalls, SaneBits;
    var taken := Credit(l, who, Amount(-x.n, x.asset));
    CreditSane(l, who, Amount(-x.n, x.asset));
    var r := PutSettle(taken, id, SettleOrder(who, x, date));
    forall a ensures Gap(r, a) == Gap(l, a) {
      CreditMoves(l, who, Amount(-x.n, x.asset), a);
      PutSettleMoves(taken, id, SettleOrder(who, x, date), a);
    }
    SameDebt(l, r);
    BurnKeeps(l, r, 0, 0);
  }

  lemma SettleKeeps(l: Ledger, who: Account, x: Amount, id: OrderId, date: nat)
    requires Invariant(l) && id !in l.settles && Settle(l, who, x, id, date).Some?
    ensures Invariant(Settle(l, who, x, id, date).value) && Conserves(l, Settle(l, who, x, id, date).value)
  {
    hide Invariant, Conserves, Times, Get, Credit, Mint, PutBit, PutSettle;
    if l.bits[x.asset].settlement.Some? {
      RedeemKeeps(l, who, x, id, date);
    } else {
      RequestKeeps(l, who, x, id, date);
    }
  }

  lemma SaneOf(l: Ledger)
    requires Invariant(l)
    ensures Sane(l)
  {}

  // ---- runs ----

  datatype Step =
    | Trade(usd: OrderId, core: OrderId)
    | CallMargin(call: OrderId, bid: OrderId)
    | ForceSettle(call: OrderId, settle: OrderId, price: Price, max: nat)
    | SettleAll(m: AssetId, price: Price, ids: seq<OrderId>)
    | Redeem(who: Account, x: Amount, settle: OrderId, date: nat)
    | CancelBid(bid: OrderId)
    | CancelRequest(settle: OrderId)

  predicate SanePrice(p: Price) {
    p.base.n >= 0 && p.quote.n >= 0
  }

  /** The ledger after one step; None if the step is not possible or throws. */
  ghost function Apply(l: Ledger, assets: Assets, s: Step): Option<Ledger> {
    match s
    case Trade(usd, core) =>
      if usd in l.limits && core in l.limits && Opposed(l, usd, core, l.limits[core].sellPrice) then
        var r := MatchLimits(l, assets, usd, core, l.limits[core].sellPrice);
        if r.Some? then Some(r.value.0) else None
      else None
    case CallMargin(call, bid) =>
      if call in l.calls && bid in l.limits && MarginCall(l, assets, call, bid).Some?
      then Some(MarginCall(l, assets, call, bid).value.0) else None
    case ForceSettle(call, settle, p, max) =>
      if call in l.calls && settle in l.settles && SanePrice(p) && MatchSettle(l, assets, call, settle, p, max).Settled?
      then Some(MatchSettle(l, assets, call, settle, p, max).l) else None
    case SettleAll(m, p, ids) =>
      if m in l.bits && SanePrice(p) && Lists(l, m, ids) then GlobalSettle(l, m, p, ids) else None
    case Redeem(who, x, settle, date) =>
      if settle !in l.settles then Settle(l, who, x, settle, date) else None
    case CancelBid(bid) =>
      if bid in l.limits then Some(CancelLimit(l, bid)) else None
    case CancelRequest(settle) =>
      if settle in l.settles then Some(CancelSettle(l, settle)) else None
  }

  /** A step that throws is undone and leaves the ledger as it was. */
  ghost function Run(l: Ledger, assets: Assets, steps: seq<Step>): Ledger
    decreases |steps|
  {
    if steps == [] then l
    else
      var r := Apply(l, assets, steps[0]);
      Run(if r.Some? then r.value else l, assets, steps[1..])
  }

  /** A settlement price, once set, stays. */
  ghost predicate PricesStay(l: Ledger, l': Ledger) {
    forall m <- l.bits :: m in l'.bits && (l.bits[m].settlement.Some? ==> l'.bits[m].settlement == l.bits[m].settlement)
  }

  lemma CancelsKeep(l: Ledger, r: Ledger)
    requires Invariant(l) && Sane(r) && Conserves(l, r) && r.calls == l.calls && r.supply == l.supply
    requires r.bits == l.bits
    ensures Invariant(r)
  {
    hide Gap, DebtTotal, Sane;
    SameDebt(l, r);
    BurnKeeps(l, r, 0, 0);
  }

  lemma StepKeeps(l: Ledger, assets: Assets, s: Step)
    requires Invariant(l) && SaneAssets(assets) && Apply(l, assets, s).Some?
    ensures var r := Apply(l, assets, s).value; Invariant(r) && Conserves(l, r)
  {
    hide Sane, Covered, Gap, MatchLimits, MarginCall, MatchSettle, GlobalSettle, Lists, Opposed, Adjust;
    match s
    case Trade(usd, core) => MatchLimitsKeeps(l, assets, usd, core);
    case CallMargin(call, bid) => MarginCallKeeps(l, assets, call, bid);
    case ForceSettle(call, settle, p, max) => MatchSettleKeeps(l, assets, call, settle, p, max);
    case SettleAll(m, p, ids) => GlobalSettleKeeps(l, m, p, ids);
    case Redeem(who, x, settle, date) =>
      SettleKeeps(l, who, x, settle, date);
    case CancelBid(bid) =>
      CancelLimitSane(l, bid);
      forall a ensures Gap(CancelLimit(l, bid), a) == Gap(l, a) { CancelLimitMoves(l, bid, a); }
      CancelsKeep(l, CancelLimit(l, bid));
    case CancelRequest(settle) =>
      SettleCancelKeeps(l, settle);
  }

  lemma OnePriceStays(l: Ledger, r: Ledger, m: AssetId)
    requires m in l.bits && m in r.bits && r.bits == l.bits[m := r.bits[m]]
    requires l.bits[m].settlement.None? || r.bits[m].settlement == l.bits[m].settlement
    ensures PricesStay(l, r)
  {}

  lemma StepPrices(l: Ledger, assets: Assets, s: Step)
    requires Invariant(l) && SaneAssets(assets) && Apply(l, assets, s).Some?
    ensures PricesStay(l, Apply(l, assets, s).value)
  {
    hide Invariant, Conserves, MatchLimits, MarginCall, MatchSettle, GlobalSettle, Lists, Opposed;
    hide Adjust, Get, Times, DebtTotal;
    match s
    case Trade(usd, core) => MatchLimitsKeeps(l, assets, usd, core);
    case CallMargin(call, bid) => MarginCallKeeps(l, assets, call, bid);
    case ForceSettle(call, settle, p, max) => MatchSettleKeeps(l, assets, call, settle, p, max);
    case SettleAll(m, p, ids) =>
      GlobalSettleKeeps(l, m, p, ids);
      OnePriceStays(l, Apply(l, assets, s).value, m);
    case Redeem(who, x, settle, date) => RedeemPrices(l, who, x, settle, date);
    case _ =>
  }

  lemma RedeemPrices(l: Ledger, who: Account, x: Amount, id: OrderId, date: nat)
    requires id !in l.settles && Settle(l, who, x, id, date).Some?
    ensures PricesStay(l, Settle(l, who, x, id, date).value)
  {
    hide PricesStay, Get, Times, Adjust;
    OnePriceStays(l, Settle(l, who, x, id, date).value, x.asset);
  }

  /**
   * Over every run, each asset's holdings change only with its supply, call debts of an unsettled asset stay equal to
   * its supply, and the fund of a settled one keeps covering the supply left at the price fixed when it was settled.
   */
  lemma {:induction false} RunKeeps(l: Ledger, assets: Assets, steps: seq<Step>)
    requires Invariant(l) && SaneAssets(assets)
    ensures var r := Run(l, assets, steps);
      && Invariant(r) && PricesStay(l, r)
      && forall a :: Total(r, a) - Total(l, a) == Get(r.supply, a) - Get(l.supply, a)
    decreases |steps|
  {
    hide Invariant, Apply, Total, SaneAssets;
    if steps != [] {
      var step := Apply(l, assets, steps[0]);
      var next := if step.Some? then step.value else l;
      if step.Some? {
        StepKeeps(l, assets, steps[0]);
        StepPrices(l, assets, steps[0]);
      }
      RunKeeps(next, assets, steps[1..]);
      forall a ensures Total(next, a) - Total(l, a) == Get(next.supply, a) - Get(l.supply, a) {
        assert Gap(next, a) == Gap(l, a);
      }
    }
  }
}
