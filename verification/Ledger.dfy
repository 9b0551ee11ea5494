/**
 * What the market moves money between, and what one asset adds up to.
 *
 * Every record the market writes is a map entry. A market operation is a chain of the elementary
 * writes below; each write has one lemma saying by how much it moves the total of an asset.
 */
module Ledger {
  import opened Wrappers
  import opened MapSum

  type Account = nat
  type AssetId = nat
  type OrderId = nat

  const CORE: AssetId := 0
  const FULL_PERCENT := 10000
  const MAX_SHARE_SUPPLY := 100_000_000_000_000_000

  datatype Amount = Amount(n: int, asset: AssetId)
  datatype Price = Price(base: Amount, quote: Amount)
  datatype Holder = Holder(who: Account, asset: AssetId)

  datatype LimitOrder = LimitOrder(seller: Account, forSale: int, sellPrice: Price, deferredFee: int) {
    function AmountForSale(): Amount { Amount(forSale, sellPrice.base.asset) }
  }

  datatype CallOrder = CallOrder(borrower: Account, collateral: int, debt: int, callPrice: Price) {
    function Debt(): Amount { Amount(debt, callPrice.quote.asset) }
    function Collateral(): Amount { Amount(collateral, callPrice.base.asset) }
  }

  datatype SettleOrder = SettleOrder(owner: Account, balance: Amount, date: nat)

  /**
   * The market-issued part of an asset; `settlement` is set by a global settlement, `forceable` is
   * can_force_settle.
   */
  datatype Bitasset = Bitasset(backing: AssetId, prediction: bool, forceable: bool, feed: Option<Price>,
                               offsetPercent: nat, volumePercent: nat,
                               settledVolume: int, settlement: Option<Price>, fund: int)

  datatype AssetOptions = AssetOptions(chargesFees: bool, feePercent: nat, maxFee: nat)

  datatype Ledger = Ledger(
    balances: map<Holder, int>,
    limits: map<OrderId, LimitOrder>,
    calls: map<OrderId, CallOrder>,
    settles: map<OrderId, SettleOrder>,
    supply: map<AssetId, int>,
    fees: map<AssetId, int>,
    pending: map<Account, int>,
    bits: map<AssetId, Bitasset>)

  // ---- totals ----

  ghost function BalanceIn(a: AssetId): (Holder, int) -> int {
    (k: Holder, v: int) => if k.asset == a then v else 0
  }

  ghost function LimitIn(a: AssetId): (OrderId, LimitOrder) -> int {
    (k: OrderId, o: LimitOrder) =>
      (if o.sellPrice.base.asset == a then o.forSale else 0) + (if a == CORE then o.deferredFee else 0)
  }

  ghost function CollateralIn(a: AssetId): (OrderId, CallOrder) -> int {
    (k: OrderId, o: CallOrder) => if o.callPrice.base.asset == a then o.collateral else 0
  }

  ghost function DebtIn(a: AssetId): (OrderId, CallOrder) -> int {
    (k: OrderId, o: CallOrder) => if o.callPrice.quote.asset == a then o.debt else 0
  }

  ghost function SettleIn(a: AssetId): (OrderId, SettleOrder) -> int {
    (k: OrderId, o: SettleOrder) => if o.balance.asset == a then o.balance.n else 0
  }

  ghost function FundIn(a: AssetId): (AssetId, Bitasset) -> int {
    (k: AssetId, b: Bitasset) => if b.backing == a then b.fund else 0
  }

  ghost function PendingIn(a: AssetId): (Account, int) -> int {
    (k: Account, v: int) => if a == CORE then v else 0
  }

  /** Everything of asset a that the market's records hold. */
  ghost function Total(l: Ledger, a: AssetId): int {
    Sum(l.balances, BalanceIn(a)) + Sum(l.limits, LimitIn(a)) + Sum(l.calls, CollateralIn(a))
    + Sum(l.settles, SettleIn(a)) + Sum(l.bits, FundIn(a)) + Sum(l.pending, PendingIn(a)) + Get(l.fees, a)
  }

  ghost function DebtTotal(l: Ledger, m: AssetId): int {
    Sum(l.calls, DebtIn(m))
  }

  /** What the market holds of a beyond the supply of a; no market operation may move it. */
  ghost function Gap(l: Ledger, a: AssetId): int {
    Total(l, a) - Get(l.supply, a)
  }

  function If(counted: bool, n: int): int {
    if counted then n else 0
  }

  // ---- elementary writes ----

  function Credit(l: Ledger, who: Account, x: Amount): Ledger {
    l.(balances := Adjust(l.balances, Holder(who, x.asset), x.n))
  }

  function AddFee(l: Ledger, x: Amount): Ledger {
    l.(fees := Adjust(l.fees, x.asset, x.n))
  }

  function AddPending(l: Ledger, who: Account, n: int): Ledger {
    l.(pending := Adjust(l.pending, who, n))
  }

  function Mint(l: Ledger, x: Amount): Ledger {
    l.(supply := Adjust(l.supply, x.asset, x.n))
  }

  function PutLimit(l: Ledger, id: OrderId, o: LimitOrder): Ledger {
    l.(limits := l.limits[id := o])
  }

  function DropLimit(l: Ledger, id: OrderId): Ledger {
    l.(limits := l.limits - {id})
  }

  function PutCall(l: Ledger, id: OrderId, o: CallOrder): Ledger {
    l.(calls := l.calls[id := o])
  }

  function DropCall(l: Ledger, id: OrderId): Ledger {
    l.(calls := l.calls - {id})
  }

  function PutSettle(l: Ledger, id: OrderId, o: SettleOrder): Ledger {
    l.(settles := l.settles[id := o])
  }

  function DropSettle(l: Ledger, id: OrderId): Ledger {
    l.(settles := l.settles - {id})
  }

  function PutBit(l: Ledger, m: AssetId, b: Bitasset): Ledger {
    l.(bits := l.bits[m := b])
  }

  function SetSupply(l: Ledger, a: AssetId, n: int): Ledger {
    l.(supply := l.supply[a := n])
  }

  lemma CreditMoves(l: Ledger, who: Account, x: Amount, a: AssetId)
    ensures Gap(Credit(l, who, x), a) == Gap(l, a) + If(x.asset == a, x.n)
  {
    SumAdjust(l.balances, BalanceIn(a), Holder(who, x.asset), x.n, x.asset == a);
  }

  lemma AddFeeMoves(l: Ledger, x: Amount, a: AssetId)
    ensures Gap(AddFee(l, x), a) == Gap(l, a) + If(x.asset == a, x.n)
  {}

  lemma AddPendingMoves(l: Ledger, who: Account, n: int, a: AssetId)
    ensures Gap(AddPending(l, who, n), a) == Gap(l, a) + If(a == CORE, n)
  {
    SumAdjust(l.pending, PendingIn(a), who, n, a == CORE);
  }

  lemma MintMoves(l: Ledger, x: Amount, a: AssetId)
    ensures Gap(Mint(l, x), a) == Gap(l, a) - If(x.asset == a, x.n)
  {}

  lemma PutLimitMoves(l: Ledger, id: OrderId, o: LimitOrder, a: AssetId)
    requires id in l.limits
    ensures Gap(PutLimit(l, id, o), a) == Gap(l, a) + LimitIn(a)(id, o) - LimitIn(a)(id, l.limits[id])
  {
    SumUpdate(l.limits, LimitIn(a), id, o);
  }

  lemma DropLimitMoves(l: Ledger, id: OrderId, a: AssetId)
    requires id in l.limits
    ensures Gap(DropLimit(l, id), a) == Gap(l, a) - LimitIn(a)(id, l.limits[id])
  {
    SumRemove(l.limits, LimitIn(a), id);
  }

  lemma PutCallMoves(l: Ledger, id: OrderId, o: CallOrder, a: AssetId)
    requires id in l.calls
    ensures Gap(PutCall(l, id, o), a) == Gap(l, a) + CollateralIn(a)(id, o) - CollateralIn(a)(id, l.calls[id])
    ensures DebtTotal(PutCall(l, id, o), a) == DebtTotal(l, a) + DebtIn(a)(id, o) - DebtIn(a)(id, l.calls[id])
  {
    SumUpdate(l.calls, CollateralIn(a), id, o);
    SumUpdate(l.calls, DebtIn(a), id, o);
  }

  lemma DropCallMoves(l: Ledger, id: OrderId, a: AssetId)
    requires id in l.calls
    ensures Gap(DropCall(l, id), a) == Gap(l, a) - CollateralIn(a)(id, l.calls[id])
    ensures DebtTotal(DropCall(l, id), a) == DebtTotal(l, a) - DebtIn(a)(id, l.calls[id])
  {
    SumRemove(l.calls, CollateralIn(a), id);
    SumRemove(l.calls, DebtIn(a), id);
  }

  lemma PutSettleMoves(l: Ledger, id: OrderId, o: SettleOrder, a: AssetId)
    ensures Gap(PutSettle(l, id, o), a) == Gap(l, a) + SettleIn(a)(id, o)
      - if id in l.settles then SettleIn(a)(id, l.settles[id]) else 0
  {
    if id in l.settles {
      SumUpdate(l.settles, SettleIn(a), id, o);
    } else {
      SumInsert(l.settles, SettleIn(a), id, o);
    }
  }

  lemma DropSettleMoves(l: Ledger, id: OrderId, a: AssetId)
    requires id in l.settles
    ensures Gap(DropSettle(l, id), a) == Gap(l, a) - SettleIn(a)(id, l.settles[id])
  {
    SumRemove(l.settles, SettleIn(a), id);
  }

  lemma PutBitMoves(l: Ledger, m: AssetId, b: Bitasset, a: AssetId)
    requires m in l.bits
    ensures Gap(PutBit(l, m, b), a) == Gap(l, a) + FundIn(a)(m, b) - FundIn(a)(m, l.bits[m])
  {
    SumUpdate(l.bits, FundIn(a), m, b);
  }

  lemma SetSupplyMoves(l: Ledger, m: AssetId, n: int, a: AssetId)
    ensures Gap(SetSupply(l, m, n), a) == Gap(l, a) + Get(l.supply, a) - (if a == m then n else Get(l.supply, a))
  {}
}
