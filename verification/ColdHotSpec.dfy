/**
 * Transfers between cold and hot multisig addresses: the original request, its unsigned transaction, the signatures,
 * the combination, the final ETH signature, and the ways a transfer ends.
 */
module ColdHotSpec {
  import opened ForeignIds

  datatype Kind = Transfer | WithoutSign | WithSign | CombineSign | SignFinal | ChangeSigner
                | CancelTransfer | CancelUncombined | CancelCombined | EthCancel

  datatype State = Uncreate | Create | Sign | CombineCreate | Confirm | Fail | EthNeedSign | EthSign

  /** A coldhot_transfer_object. */
  datatype Record = Record(kind: Kind, relate: TrxId, state: State, foreign: string, symbol: string)

  type Records = map<TrxId, Record>

  const ANY: set<State> := {Uncreate, Create, Sign, CombineCreate, Confirm, Fail, EthNeedSign, EthSign}

  function Touch(r: Record, st: State, f: Foreign): (t: Record)
    ensures t.kind == r.kind && t.relate == r.relate && t.symbol == r.symbol && t.state == st
  {
    match f
    case Keep => r.(state := st)
    case Set(id) => r.(state := st, foreign := id)
  }

  function MoveOne(records: Records, x: TrxId, st: State, f: Foreign): Records
    requires x in records
  {
    records[x := Touch(records[x], st, f)]
  }

  function MoveRelated(records: Records, w: TrxId, from: set<State>, st: State, f: Foreign): Records {
    map id <- records ::
      if records[id].relate == w && records[id].state in from then Touch(records[id], st, f) else records[id]
  }

  /** The unsigned transaction, the original request, then the related records in the given states. */
  function MoveFamily(records: Records, w: TrxId, from: set<State>, st: State, f: Foreign): Records
    requires w in records && records[w].relate in records
  {
    MoveRelated(MoveOne(MoveOne(records, w, st, f), records[w].relate, st, f), w, from, st, f)
  }

  /**
   * The combination treats any symbol that contains ETH as one of the ETH family; the result only the symbol ETH
   * itself.
   */
  predicate CombinesAsEth(symbol: string) {
    Contains(symbol, "ETH") || Contains(symbol, "ERC")
  }

  function CombineState(symbol: string): State {
    if CombinesAsEth(symbol) then EthNeedSign else CombineCreate
  }

  /**
   * The result brings its foreign id and finds `used`, the ids taken by then: that index is shared with other
   * operations.
   */
  datatype Step =
    | Request(id: TrxId, symbol: string)
    | Unsigned(id: TrxId, original: TrxId)
    | Signature(id: TrxId, unsigned: TrxId)
    | Combine(id: TrxId, unsigned: TrxId, foreign: string, symbol: string)
    | Finalize(id: TrxId, kind: Kind, combine: TrxId, foreign: string, symbol: string)
    | Result(combine: TrxId, foreign: string, symbol: string, used: set<string>)
    | Pass(combine: TrxId)
    | CancelRequest(id: TrxId, original: TrxId)
    | CancelUnsigned(id: TrxId, unsigned: TrxId)
    | CancelCombine(id: TrxId, combine: TrxId)
    | CancelFinal(id: TrxId, final: TrxId)

  predicate Fresh(records: Records, id: TrxId) {
    id != 0 && id !in records
  }

  predicate Is(records: Records, id: TrxId, k: Kind, st: State) {
    id in records && records[id].kind == k && records[id].state == st
  }

  /** The record x refers to an unsigned transaction whose request is on record. */
  predicate Linked(records: Records, x: TrxId)
    requires x in records
  {
    records[x].relate in records && records[records[x].relate].relate in records
  }

  /** The evaluator's checks together with the producer's selection. */
  predicate Allowed(records: Records, step: Step) {
    match step
    case Request(id, symbol) => Fresh(records, id)
    case Unsigned(id, o) => Fresh(records, id) && Is(records, o, Transfer, Uncreate)
    case Signature(id, w) =>
      Fresh(records, id) && w in records && records[w].kind == WithoutSign
      && forall r <- records :: records[r].relate == w ==> records[r].state in {Create, Sign}
    case Combine(id, w, foreign, symbol) =>
      Fresh(records, id) && Is(records, w, WithoutSign, Create) && records[w].relate in records
    case Finalize(id, kind, c, foreign, symbol) =>
      Fresh(records, id) && kind in {SignFinal, ChangeSigner} && Is(records, c, CombineSign, EthNeedSign)
      && Linked(records, c)
    case Result(c, foreign, symbol, used) =>
      c in records && records[c].kind == CombineSign && records[c].foreign == ResultKey(symbol, foreign)
      && (IsEth(symbol) ==> records[c].state == EthSign) && Linked(records, c) && ResultKey(symbol, foreign) !in used
    case Pass(c) => Is(records, c, CombineSign, CombineCreate) && Linked(records, c)
    case CancelRequest(id, o) => Fresh(records, id) && Is(records, o, Transfer, Uncreate)
    case CancelUnsigned(id, w) =>
      Fresh(records, id) && Is(records, w, WithoutSign, Create) && records[w].relate in records
    case CancelCombine(id, c) => Fresh(records, id) && Is(records, c, CombineSign, CombineCreate) && Linked(records, c)
    case CancelFinal(id, f) => Fresh(records, id) && Is(records, f, SignFinal, EthSign) && Linked(records, f)
  }

  function Apply(records: Records, step: Step): Records
    requires Allowed(records, step)
  {
    match step
    case Request(id, symbol) => records[id := Record(Transfer, 0, Uncreate, "", symbol)]
    case Unsigned(id, o) =>
      MoveOne(records, o, Create, Keep)[id := Record(WithoutSign, o, Create, "", records[o].symbol)]
    case Signature(id, w) => records[id := Record(WithSign, w, Sign, "", records[w].symbol)]
    case Combine(id, w, foreign, symbol) =>
      MoveFamily(records, w, {Sign}, CombineState(symbol), Keep)
        [id := Record(CombineSign, w, CombineState(symbol), foreign, symbol)]
    case Finalize(id, kind, c, foreign, symbol) =>
      var w, key := records[c].relate, AfterBar(foreign);
      MoveFamily(MoveOne(records, c, EthSign, Set(key)), w, {EthNeedSign}, EthSign, Set(key))
        [id := Record(kind, w, EthSign, key, symbol)]
    case Result(c, _, _, _) => MoveFamily(records, records[c].relate, {CombineCreate, EthSign}, Confirm, Keep)
    case Pass(c) => MoveFamily(MoveOne(records, c, Confirm, Keep), records[c].relate, ANY, Confirm, Keep)
    case CancelRequest(id, o) =>
      MoveOne(records, o, Fail, Keep)[id := Record(CancelTransfer, o, Fail, "", records[o].symbol)]
    case CancelUnsigned(id, w) =>
      MoveFamily(records, w, ANY, Fail, Keep)
        [id := Record(CancelUncombined, w, Fail, "", records[records[w].relate].symbol)]
    case CancelCombine(id, c) =>
      MoveFamily(MoveOne(records, c, Fail, Keep), records[c].relate, ANY, Fail, Keep)
        [id := Record(CancelCombined, c, Fail, "", records[records[c].relate].symbol)]
    case CancelFinal(id, f) =>
      MoveFamily(MoveOne(records, f, Fail, Keep), records[f].relate, ANY, Fail, Keep)
        [id := Record(EthCancel, records[f].relate, Fail, "", records[records[f].relate].symbol)]
  }
}
