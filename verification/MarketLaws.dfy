/** What the fills do to the totals, and what a match trades. */
module MarketLaws {
  import opened MapSum
  import opened Ledger
  import opened MarketSpec
  import opened Floors

  // ---- prices ----

  /**
   * A limit match trades no more than either side holds, fills one side outright, and both sides get the match
   * price: the filled side is short by less than one unit, the other side is not short at all.
   */
  lemma MatchIsFair(usd: Amount, core: Amount, p: Price)
    requires usd.n > 0 && core.n > 0 && p.base.n > 0 && p.quote.n > 0 && p.base.asset != p.quote.asset
    requires usd.asset == p.quote.asset && core.asset == p.base.asset && MatchAmounts(usd, core, p).Some?
    ensures var (usdPays, corePays) := MatchAmounts(usd, core, p).value;
      && usdPays.asset == usd.asset && corePays.asset == core.asset
      && 0 <= usdPays.n <= usd.n && 0 <= corePays.n <= core.n
      && ((usdPays == usd && WithinOneUnit(corePays.n, usdPays.n, p.base.n, p.quote.n))
          || (corePays == core && WithinOneUnit(usdPays.n, corePays.n, p.quote.n, p.base.n)))
  {
    hide WithinOneUnit;
    FloorOf(core.n, p.quote.n, p.base.n);
    FloorNonNegative(core.n, p.quote.n, p.base.n);
    if usd.n <= core.n * p.quote.n / p.base.n {
      FloorOf(usd.n, p.base.n, p.quote.n);
      FloorNonNegative(usd.n, p.base.n, p.quote.n);
      FloorBelow(usd.n, core.n, p.base.n, p.quote.n);
    }
  }

  lemma FeeIsPart(opts: AssetOptions, n: int)
    requires n >= 0 && opts.feePercent <= FULL_PERCENT
    ensures 0 <= MarketFee(opts, n) <= n
  {
    FloorMono(opts.feePercent, FULL_PERCENT, n, FULL_PERCENT);
    FloorNonNegative(opts.feePercent, n, FULL_PERCENT);
    assert FULL_PERCENT * n / FULL_PERCENT == n;
  }

  // ---- fills ----

  lemma PayOutMoves(l: Ledger, assets: map<AssetId, AssetOptions>, who: Account, x: Amount, a: AssetId)
    ensures Gap(PayOut(l, assets, who, x), a) == Gap(l, a) + If(x.asset == a, x.n)
  {
    hide Gap, MarketFee, Options, AddFee, Credit;
    var fee := MarketFee(Options(assets, x.asset), x.n);
    AddFeeMoves(l, Amount(fee, x.asset), a);
    CreditMoves(AddFee(l, Amount(fee, x.asset)), who, Amount(x.n - fee, x.asset), a);
  }

  lemma CancelLimitMoves(l: Ledger, id: OrderId, a: AssetId)
    requires id in l.limits
    ensures Gap(CancelLimit(l, id), a) == Gap(l, a)
  {
    hide Gap, Adjust;
    var o := l.limits[id];
    var l1 := Credit(l, o.seller, o.AmountForSale());
    CreditMoves(l, o.seller, o.AmountForSale(), a);
    CreditMoves(l1, o.seller, Amount(o.deferredFee, CORE), a);
    DropLimitMoves(Credit(l1, o.seller, Amount(o.deferredFee, CORE)), id, a);
  }

  lemma CancelSettleMoves(l: Ledger, id: OrderId, a: AssetId)
    requires id in l.settles
    ensures Gap(CancelSettle(l, id), a) == Gap(l, a)
  {
    hide Gap, Adjust;
    var o := l.settles[id];
    CreditMoves(l, o.owner, o.balance, a);
    DropSettleMoves(Credit(l, o.owner, o.balance), id, a);
  }

  /** A filled limit order gives up what it pays and brings in what it receives, fees and dust included. */
  lemma FillLimitMoves(l: Ledger, assets: map<AssetId, AssetOptions>, id: OrderId, pays: Amount, receives: Amount,
                       cull: bool, a: AssetId)
    requires id in l.limits && l.limits[id].deferredFee >= 0 && FillLimit(l, assets, id, pays, receives, cull).Some?
    ensures Gap(FillLimit(l, assets, id, pays, receives, cull).value.0, a)
      == Gap(l, a) + If(receives.asset == a, receives.n) - If(pays.asset == a, pays.n)
  {
    hide Gap, Adjust, Times, MarketFee, Options;
    var o := l.limits[id];
    var paid := PayOut(l, assets, o.seller, receives);
    var settled := AddPending(paid, o.seller, o.deferredFee);
    PayOutMoves(l, assets, o.seller, receives, a);
    AddPendingMoves(paid, o.seller, o.deferredFee, a);
    if pays.n == o.forSale {
      DropLimitMoves(settled, id, a);
    } else {
      var left := o.(forSale := o.forSale - pays.n, deferredFee := 0);
      PutLimitMoves(settled, id, left, a);
      CancelLimitMoves(PutLimit(settled, id, left), id, a);
    }
  }

  lemma FillCallMoves(l: Ledger, id: OrderId, pays: Amount, receives: Amount, a: AssetId)
    requires id in l.calls && FillCall(l, id, pays, receives).Some?
    ensures var l1 := FillCall(l, id, pays, receives).value.0;
      && Gap(l1, a) == Gap(l, a) + If(receives.asset == a, receives.n) - If(pays.asset == a, pays.n)
      && DebtTotal(l1, a) == DebtTotal(l, a) - If(receives.asset == a, receives.n)
      && Get(l1.supply, a) == Get(l.supply, a) - If(receives.asset == a, receives.n)
  {
    hide Gap, Sum, Adjust;
    var o := l.calls[id];
    var burned := Mint(l, Amount(-receives.n, receives.asset));
    var left := o.(debt := o.debt - receives.n, collateral := o.collateral - pays.n);
    MintMoves(l, Amount(-receives.n, receives.asset), a);
    if left.debt == 0 {
      CreditMoves(burned, o.borrower, left.Collateral(), a);
      DropCallMoves(Credit(burned, o.borrower, left.Collateral()), id, a);
    } else {
      PutCallMoves(burned, id, left, a);
    }
  }

  lemma FillSettleMoves(l: Ledger, assets: map<AssetId, AssetOptions>, id: OrderId, pays: Amount, receives: Amount,
                        a: AssetId)
    requires id in l.settles && pays.asset == l.settles[id].balance.asset && pays.n <= l.settles[id].balance.n
    ensures Gap(FillSettle(l, assets, id, pays, receives).0, a)
      == Gap(l, a) + If(receives.asset == a, receives.n) - If(pays.asset == a, pays.n)
  {
    hide Gap, Adjust, MarketFee, Options;
    var o := l.settles[id];
    var paid := PayOut(l, assets, o.owner, receives);
    PayOutMoves(l, assets, o.owner, receives, a);
    DropSettleMoves(paid, id, a);
    PutSettleMoves(paid, id, o.(balance := Amount(o.balance.n - pays.n, o.balance.asset)), a);
  }
}
