/**
 * The cross-chain protocol: records of withdrawals, batches, signatures and combinations, the foreign transaction ids
 * already used, and the amounts that back a foreign asset.
 */
module CrossChainSpec {
  import opened MapSum
  import opened ForeignIds

  type AssetId = nat
  const CORE: AssetId := 0

  datatype Holder = Holder(who: nat, asset: AssetId)
  datatype Amount = Amount(n: int, asset: AssetId)

  datatype Kind = Withdraw | WithoutSign | WithSign | CombineSign | SignFinal | ChangeSigner

  datatype State = Uncreate | Create | Sign | CombineCreate | Confirm | Fail | Canceled | EthNeedSign | EthSign

  /** A crosschain_trx_object; origins and fee are used by the without-sign record, which is the batch. */
  datatype Record = Record(kind: Kind, relate: TrxId, origins: seq<TrxId>, state: State, foreign: string, fee: Amount,
                           symbol: string)

  type Records = map<TrxId, Record>

  datatype Acquired = AcquiredUncreate | AcquiredCreate | AcquiredConfirmed | DepositFailure

  // ---- rewriting records ----

  function Touch(r: Record, st: State, f: Foreign): Record {
    match f
    case Keep => r.(state := st)
    case Set(id) => r.(state := st, foreign := id)
  }

  /** The records in a list of ids all move to one state. */
  function MoveAll(records: Records, ids: seq<TrxId>, st: State, f: Foreign): Records {
    map id <- records :: if id in ids then Touch(records[id], st, f) else records[id]
  }

  /** The records that refer to w and are in one of the given states move on. */
  function MoveRelated(records: Records, w: TrxId, from: set<State>, st: State, f: Foreign): Records {
    map id <- records ::
      if records[id].relate == w && records[id].state in from then Touch(records[id], st, f) else records[id]
  }

  const NO_FEE := Amount(0, CORE)

  function Combined(records: Records, id: TrxId, w: TrxId, foreign: string, symbol: string): Records
    requires w in records
  {
    var st := if IsEth(symbol) then EthNeedSign else CombineCreate;
    var batch := records[w := records[w].(state := st)];
    var moved := MoveRelated(MoveAll(batch, records[w].origins, st, Set(foreign)), w, {Sign}, st, Keep);
    moved[id := Record(CombineSign, w, [], st, foreign, NO_FEE, symbol)]
  }

  /** The final signature, or a change of signer, on an ETH combination c. */
  function Finalized(records: Records, id: TrxId, kind: Kind, c: TrxId, foreign: string, symbol: string): Records
    requires c in records && records[c].relate in records
  {
    var w := records[c].relate;
    var signed := records[c := records[c].(state := EthSign, foreign := foreign)];
    var batch := signed[w := signed[w].(state := EthSign)];
    var moved := MoveRelated(MoveAll(batch, batch[w].origins, EthSign, Set(foreign)), w, {EthNeedSign}, EthSign,
                             Set(foreign));
    moved[id := Record(kind, w, [], EthSign, foreign, NO_FEE, symbol)]
  }

  function Confirmed(records: Records, w: TrxId): Records
    requires w in records
  {
    var batch := records[w := records[w].(state := Confirm)];
    MoveRelated(MoveAll(batch, batch[w].origins, Confirm, Keep), w, {CombineCreate, EthSign}, Confirm, Keep)
  }

  function Batched(records: Records, id: TrxId, origins: seq<TrxId>, fee: Amount, symbol: string): Records
    requires origins != []
  {
    MoveAll(records, origins, Create, Keep)[id := Record(WithoutSign, origins[0], origins, Create, "", fee, symbol)]
  }

  // ---- the whole state and its steps ----

  /**
   * inBlock is false between update_fee_pool and the reset of the next block, when `collected` is already in the
   * pool.
   */
  datatype Bridge = Bridge(
    balances: map<Holder, int>,
    supply: map<AssetId, int>,
    pool: map<AssetId, int>,
    collected: map<AssetId, int>,
    inBlock: bool,
    records: Records,
    acquired: map<string, Acquired>)

  datatype Step =
    | Deposit(owner: nat, x: Amount, foreign: string)
    | WithdrawRequest(id: TrxId, owner: nat, x: Amount, symbol: string)
    | Batch(id: TrxId, origins: seq<TrxId>, asset: AssetId, fee: Amount, symbol: string)
    | Signature(id: TrxId, batch: TrxId, symbol: string)
    | Combine(id: TrxId, signature: TrxId, foreign: string, symbol: string)
    | Finalize(id: TrxId, kind: Kind, combine: TrxId, foreign: string, symbol: string)
    | Result(combine: TrxId, foreign: string, symbol: string)
    | ColdHotResult(x: Amount, foreign: string, symbol: string)
    | Reopen(final: TrxId, signed: string)
    | OpenBlock
    | CloseBlock

  /** A foreign id that is free to be used. */
  predicate Free(acquired: map<string, Acquired>, key: string) {
    key !in acquired || acquired[key] == AcquiredUncreate
  }

  predicate Fresh(records: Records, id: TrxId) {
    id != 0 && id !in records
  }

  /** What adjust_balance demands. */
  predicate MayAdjust(balances: map<Holder, int>, h: Holder, n: int) {
    n >= 0 || Get(balances, h) >= -n
  }

  /**
   * The key that wallfacer_change_acquire_trx frees: `signed` is the id in the final signature, whose record keeps
   * what follows the bar.
   */
  function ReopenKey(records: Records, final: TrxId, signed: string): string
    requires final in records
  {
    ResultKey(records[final].symbol, signed)
  }

  /** The evaluator's checks together with the selection made by the producer of the operation. */
  predicate Allowed(s: Bridge, step: Step) {
    match step
    case Deposit(owner, x, foreign) =>
      s.inBlock && MayAdjust(s.balances, Holder(owner, x.asset), x.n) && Free(s.acquired, foreign)
    case WithdrawRequest(id, owner, x, symbol) =>
      s.inBlock && Fresh(s.records, id) && MayAdjust(s.balances, Holder(owner, x.asset), -x.n)
    case Batch(id, origins, asset, fee, symbol) =>
      s.inBlock && Fresh(s.records, id) && origins != [] && fee.n >= 0
      && forall o <- origins :: o in s.records && s.records[o].kind == Withdraw && s.records[o].state == Uncreate
    case Signature(id, batch, symbol) =>
      s.inBlock && Fresh(s.records, id) && batch in s.records && s.records[batch].kind == WithoutSign
      && forall r <- s.records :: s.records[r].relate == batch ==> s.records[r].state in {Create, Sign}
    case Combine(id, signature, foreign, symbol) =>
      s.inBlock && Fresh(s.records, id) && signature in s.records && s.records[signature].kind == WithSign
      && s.records[signature].relate in s.records
      && forall o <- s.records[s.records[signature].relate].origins :: o in s.records && s.records[o].state == Create
    case Finalize(id, kind, combine, foreign, symbol) =>
      s.inBlock && Fresh(s.records, id) && kind in {SignFinal, ChangeSigner} && combine in s.records
      && s.records[combine].kind == CombineSign
      && s.records[combine].relate in s.records && s.records[combine].state == EthNeedSign
    case Result(combine, foreign, symbol) =>
      s.inBlock && combine in s.records && s.records[combine].kind == CombineSign
      && s.records[combine].foreign == ResultKey(symbol, foreign) && s.records[combine].relate in s.records
      && (forall o <- s.records[s.records[combine].relate].origins :: o in s.records)
      && (IsEth(symbol) ==> s.records[combine].state == EthSign) && Free(s.acquired, ResultKey(symbol, foreign))
    case ColdHotResult(x, foreign, symbol) =>
      s.inBlock && Free(s.acquired, ResultKey(symbol, foreign))
    case Reopen(final, signed) =>
      s.inBlock && final in s.records && s.records[final].kind == SignFinal && s.records[final].state == EthSign
      && s.records[final].foreign == AfterBar(signed) && ReopenKey(s.records, final, signed) in s.acquired
    case OpenBlock => !s.inBlock
    case CloseBlock => s.inBlock
  }

  /** update_fee_pool: every foreign asset's fees of this block go to the pool. */
  function PoolAfter(pool: map<AssetId, int>, collected: map<AssetId, int>): map<AssetId, int> {
    map a <- pool.Keys + collected.Keys :: Get(pool, a) + (if a == CORE then 0 else Get(collected, a))
  }

  function Apply(s: Bridge, step: Step): Bridge
    requires Allowed(s, step)
  {
    match step
    case Deposit(owner, x, foreign) =>
      s.(balances := Adjust(s.balances, Holder(owner, x.asset), x.n), supply := Adjust(s.supply, x.asset, x.n),
         acquired := s.acquired[foreign := AcquiredCreate])
    case WithdrawRequest(id, owner, x, symbol) =>
      s.(balances := Adjust(s.balances, Holder(owner, x.asset), -x.n), supply := Adjust(s.supply, x.asset, -x.n),
         records := s.records[id := Record(Withdraw, 0, [], Uncreate, "", NO_FEE, symbol)])
    case Batch(id, origins, asset, fee, symbol) =>
      s.(records := Batched(s.records, id, origins, fee, symbol), supply := Adjust(s.supply, asset, fee.n))
    case Signature(id, batch, symbol) =>
      s.(records := s.records[id := Record(WithSign, batch, [], Sign, "", NO_FEE, s.records[batch].symbol)])
    case Combine(id, signature, foreign, symbol) =>
      s.(records := Combined(s.records, id, s.records[signature].relate, foreign, symbol))
    case Finalize(id, kind, combine, foreign, symbol) =>
      s.(records := Finalized(s.records, id, kind, combine, AfterBar(foreign), symbol))
    case Result(combine, foreign, symbol) =>
      var w := s.records[combine].relate;
      var fee := s.records[w].fee;
      s.(records := Confirmed(s.records, w), collected := Adjust(s.collected, fee.asset, fee.n),
         acquired := s.acquired[ResultKey(symbol, foreign) := AcquiredConfirmed])
    case ColdHotResult(x, foreign, symbol) =>
      s.(supply := Adjust(s.supply, x.asset, -x.n), collected := Adjust(s.collected, x.asset, -x.n),
         acquired := s.acquired[ResultKey(symbol, foreign) := AcquiredConfirmed])
    case Reopen(final, signed) =>
      s.(acquired := s.acquired[ReopenKey(s.records, final, signed) := AcquiredUncreate])
    case OpenBlock =>
      s.(collected := map[], inBlock := true)
    case CloseBlock =>
      s.(pool := PoolAfter(s.pool, s.collected), inBlock := false)
  }
}
