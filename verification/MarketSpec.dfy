/**
 * The market operations as functions from ledger to ledger. None stands for a thrown exception:
 * the enclosing undo session then discards the whole step.
 */
module MarketSpec {
  import opened Wrappers
  import opened MapSum
  import opened Ledger

  /** asset * price: the value at the price, rounded down. */
  function Times(x: Amount, p: Price): Option<Amount> {
    if x.asset == p.base.asset then
      if p.base.n > 0 then Capped(x.n * p.quote.n / p.base.n, p.quote.asset) else None
    else if x.asset == p.quote.asset then
      if p.quote.n > 0 then Capped(x.n * p.base.n / p.quote.n, p.base.asset) else None
    else None
  }

  function Capped(n: int, a: AssetId): Option<Amount> {
    if n <= MAX_SHARE_SUPPLY then Some(Amount(n, a)) else None
  }

  function Min(x: int, y: int): int {
    if x <= y then x else y
  }

  /** calculate_market_fee. */
  function MarketFee(opts: AssetOptions, n: int): int {
    if !opts.chargesFees || opts.feePercent == 0 then 0
    else Min(n * opts.feePercent / FULL_PERCENT, opts.maxFee)
  }

  function Options(assets: map<AssetId, AssetOptions>, a: AssetId): AssetOptions {
    if a in assets then assets[a] else AssetOptions(false, 0, 0)
  }

  /** pay_market_fees and the payment of what is left to the receiver. */
  function PayOut(l: Ledger, assets: map<AssetId, AssetOptions>, who: Account, x: Amount): Ledger {
    var fee := MarketFee(Options(assets, x.asset), x.n);
    Credit(AddFee(l, Amount(fee, x.asset)), who, Amount(x.n - fee, x.asset))
  }

  /** cancel_order for a limit order. */
  function CancelLimit(l: Ledger, id: OrderId): Ledger
    requires id in l.limits
  {
    var o := l.limits[id];
    DropLimit(Credit(Credit(l, o.seller, o.AmountForSale()), o.seller, Amount(o.deferredFee, CORE)), id)
  }

  /** cancel_order for a force settlement. */
  function CancelSettle(l: Ledger, id: OrderId): Ledger
    requires id in l.settles
  {
    var o := l.settles[id];
    DropSettle(Credit(l, o.owner, o.balance), id)
  }

  /** fill_order for a limit order; the flag says that the order is gone. */
  function FillLimit(l: Ledger, assets: map<AssetId, AssetOptions>, id: OrderId, pays: Amount, receives: Amount,
                     cullIfSmall: bool): Option<(Ledger, bool)>
    requires id in l.limits
  {
    var o := l.limits[id];
    if o.sellPrice.base.asset != pays.asset || pays.asset == receives.asset then None
    else
      var paid := AddPending(PayOut(l, assets, o.seller, receives), o.seller,
                             if o.deferredFee > 0 then o.deferredFee else 0);
      if pays.n == o.forSale then Some((DropLimit(paid, id), true))
      else
        var left := o.(forSale := o.forSale - pays.n, deferredFee := 0);
        var shrunk := PutLimit(paid, id, left);
        if !cullIfSmall then Some((shrunk, false))
        else match Times(left.AmountForSale(), left.sellPrice)
          case None => None
          case Some(r) => if r.n == 0 then Some((CancelLimit(shrunk, id), true)) else Some((shrunk, false))
  }

  /** fill_order for a call order: the debt is burned, freed collateral goes back to the borrower. */
  function FillCall(l: Ledger, id: OrderId, pays: Amount, receives: Amount): Option<(Ledger, bool)>
    requires id in l.calls
  {
    var o := l.calls[id];
    if o.Debt().asset != receives.asset || o.Collateral().asset != pays.asset || o.collateral < pays.n then None
    else
      var burned := Mint(l, Amount(-receives.n, receives.asset));
      var left := o.(debt := o.debt - receives.n, collateral := o.collateral - pays.n);
      if left.debt == 0 then Some((DropCall(Credit(burned, o.borrower, left.Collateral()), id), true))
      else Some((PutCall(burned, id, left), false))
  }

  /** fill_order for a force settlement. */
  function FillSettle(l: Ledger, assets: map<AssetId, AssetOptions>, id: OrderId, pays: Amount,
                      receives: Amount): (Ledger, bool)
    requires id in l.settles
  {
    var o := l.settles[id];
    var paid := PayOut(l, assets, o.owner, receives);
    if pays.n < o.balance.n
    then (PutSettle(paid, id, o.(balance := Amount(o.balance.n - pays.n, o.balance.asset))), false)
    else (DropSettle(paid, id), true)
  }

  /** What a limit match trades: (what usd pays, what core pays). */
  function MatchAmounts(usd: Amount, core: Amount, p: Price): Option<(Amount, Amount)> {
    match Times(core, p)
    case None => None
    case Some(worth) =>
      if usd.n > worth.n then Some((worth, core))
      else match Times(usd, p)
        case None => None
        case Some(r) => Some((usd, r))
  }

  predicate Opposed(l: Ledger, usd: OrderId, core: OrderId, p: Price) {
    && usd in l.limits && core in l.limits && usd != core
    && l.limits[usd].sellPrice.base.asset == l.limits[core].sellPrice.quote.asset == p.quote.asset
    && l.limits[usd].sellPrice.quote.asset == l.limits[core].sellPrice.base.asset == p.base.asset
  }

  /** match for two limit orders; the result carries the flags of the two fills. */
  function MatchLimits(l: Ledger, assets: map<AssetId, AssetOptions>, usd: OrderId, core: OrderId,
                       p: Price): Option<(Ledger, bool, bool)>
    requires Opposed(l, usd, core, p)
  {
    match MatchAmounts(l.limits[usd].AmountForSale(), l.limits[core].AmountForSale(), p)
    case None => None
    case Some((usdPays, corePays)) =>
      match FillLimit(l, assets, usd, usdPays, corePays, false)
      case None => None
      case Some((l1, usdDone)) =>
        match FillLimit(l1, assets, core, corePays, usdPays, true)
        case None => None
        case Some((l2, coreDone)) => Some((l2, usdDone, coreDone))
  }

  /** One margin call of check_call_orders. None also covers a call order too poor to be covered at this price. */
  function MarginCall(l: Ledger, assets: map<AssetId, AssetOptions>, call: OrderId, bid: OrderId): Option<(Ledger,
                      bool, bool)>
    requires call in l.calls && bid in l.limits
  {
    var c, o := l.calls[call], l.limits[bid];
    match Times(c.Debt(), o.sellPrice)
    case None => None
    case Some(worth) =>
      if worth.asset != c.Collateral().asset || worth.n > c.collateral then None
      else
        var traded := Amount(Min(c.debt, o.forSale), c.Debt().asset);
        match Times(traded, o.sellPrice)
        case None => None
        case Some(price) =>
          match FillCall(l, call, price, traded)
          case None => None
          case Some((l1, callDone)) =>
            match FillLimit(l1, assets, bid, traded, price, true)
            case None => None
            case Some((l2, bidDone)) => Some((l2, callDone, bidDone))
  }

  datatype Terms = NoTerms | TooPoor | Terms(units: Amount, price: Amount)

  /** What a call order and a force settlement trade; TooPoor is the source's black swan exception. */
  function SettleTerms(c: CallOrder, o: SettleOrder, p: Price, max: int): Terms {
    if c.Debt().asset != o.balance.asset || c.debt <= 0 || c.collateral <= 0 || o.balance.n <= 0 then NoTerms
    else
      var units := Amount(Min(Min(o.balance.n, max), c.debt), c.Debt().asset);
      match Times(units, p)
      case None => NoTerms
      case Some(price) =>
        if price.asset != c.Collateral().asset then NoTerms
        else if price.n >= c.collateral then TooPoor
        else Terms(units, price)
  }

  datatype Matched = Failed | BlackSwan | Settled(l: Ledger, n: int)

  /** match for a call order and a force settlement. */
  function MatchSettle(l: Ledger, assets: map<AssetId, AssetOptions>, call: OrderId, settle: OrderId, p: Price,
                       max: int): Matched
    requires call in l.calls && settle in l.settles
  {
    match SettleTerms(l.calls[call], l.settles[settle], p, max)
    case NoTerms => Failed
    case TooPoor => BlackSwan
    case Terms(units, price) =>
      match FillCall(l, call, price, units)
      case None => Failed
      case Some((l1, _)) => Settled(FillSettle(l1, assets, settle, units, price).0, units.n)
  }

  /** The call orders of m, each once, in the order the price index gives them. */
  ghost predicate Lists(l: Ledger, m: AssetId, ids: seq<OrderId>) {
    && (forall i, j :: 0 <= i < j < |ids| ==> ids[i] != ids[j])
    && (forall i :: 0 <= i < |ids| ==> ids[i] in l.calls && l.calls[ids[i]].Debt().asset == m)
    && (forall id <- l.calls :: l.calls[id].Debt().asset == m ==> id in ids)
  }

  /** The loop of globally_settle_asset: every call order is closed, what it pays is gathered. */
  function CloseCalls(l: Ledger, ids: seq<OrderId>, p: Price, gathered: int): Option<(Ledger, int)>
    decreases |ids|
  {
    if ids == [] then Some((l, gathered))
    else if ids[0] !in l.calls then None
    else
      var o := l.calls[ids[0]];
      match Times(o.Debt(), p)
      case None => None
      case Some(worth) =>
        if worth.asset != o.Collateral().asset then None
        else
          var pays := Amount(Min(worth.n, o.collateral), worth.asset);
          match FillCall(l, ids[0], pays, o.Debt())
          case None => None
          case Some((l1, done)) => if done then CloseCalls(l1, ids[1..], p, gathered + pays.n) else None
  }

  /** globally_settle_asset. */
  function GlobalSettle(l: Ledger, m: AssetId, p: Price, ids: seq<OrderId>): Option<Ledger>
    requires m in l.bits
  {
    var b := l.bits[m];
    if b.settlement.Some? then None
    else match CloseCalls(l, ids, p, 0)
      case None => None
      case Some((l1, gathered)) =>
        if m == b.backing then None
        else
          var price := Price(Amount(Get(l.supply, m), m), Amount(gathered, b.backing));
          Some(SetSupply(PutBit(l1, m, b.(settlement := Some(price), fund := gathered)), m, Get(l.supply, m)))
  }

  /**
   * What asset_settle demands: the units are there, the issuer allows force settlements or a global one has happened,
   * and
   * there is a feed, or for a prediction market a global settlement.
   */
  predicate MaySettle(l: Ledger, who: Account, x: Amount) {
    && x.n >= 0 && x.asset in l.bits && Get(l.balances, Holder(who, x.asset)) >= x.n
    && (l.bits[x.asset].forceable || l.bits[x.asset].settlement.Some?)
    && (if l.bits[x.asset].prediction then l.bits[x.asset].settlement.Some? else l.bits[x.asset].feed.Some?)
  }

  /** asset_settle: a redemption after a global settlement, otherwise a new force settlement. */
  function Settle(l: Ledger, who: Account, x: Amount, id: OrderId, date: nat): Option<Ledger>
    requires id !in l.settles
  {
    if !MaySettle(l, who, x) then None
    else
      var taken := Credit(l, who, Amount(-x.n, x.asset));
      if l.bits[x.asset].settlement.Some? then DrawnFund(taken, who, x)
      else Some(PutSettle(taken, id, SettleOrder(who, x, date)))
  }

  /** The payment of a redemption out of the settlement fund; the redeemed units leave the supply. */
  function DrawnFund(l: Ledger, who: Account, x: Amount): Option<Ledger>
    requires x.asset in l.bits && l.bits[x.asset].settlement.Some?
  {
    var b := l.bits[x.asset];
    match Times(x, b.settlement.value)
    case None => None
    case Some(paid) =>
      if paid.n > b.fund then None
      else Some(Mint(Credit(PutBit(l, x.asset, b.(fund := b.fund - paid.n)), who, paid), Amount(-x.n, x.asset)))
  }
}
