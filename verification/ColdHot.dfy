/** adjust_coldhot_transaction and the evaluators around it, as methods on the index of cold/hot records. */
module ColdHot {
  import opened ForeignIds
  import opened ColdHotSpec
  import opened ColdHotLaws
  import opened Rewrites

  /** Walking the related records and moving those in the given states is MoveRelated. */
  lemma RangeIsRelated(records: Records, w: TrxId, from: set<State>, st: State, f: Foreign)
    ensures Rewrite(records, set id <- records | records[id].relate == w,
                    (r: Record) => if r.state in from then Touch(r, st, f) else r)
      == MoveRelated(records, w, from, st, f)
  {
    hide Touch;
  }

  lemma IsThere(records: Records, x: TrxId, k: Kind, st: State)
    requires Is(records, x, k, st)
    ensures x in records
  {}

  class Database {
    var records: Records

    constructor (records: Records)
      ensures this.records == records
    {
      this.records := records;
    }

    /** The loops over the range of records that relate to the unsigned transaction. */
    method MoveRange(w: TrxId, from: set<State>, st: State, f: Foreign)
      modifies this`records
      ensures records == MoveRelated(old(records), w, from, st, f)
    {
      hide Rewrite, MoveRelated, Touch;
      RangeIsRelated(records, w, from, st, f);
      var range := set id <- records | records[id].relate == w;
      records := RewriteEach(records, range, (r: Record) => if r.state in from then Touch(r, st, f) else r);
    }

    /** The unsigned transaction, the original request and the related records go to one state. */
    method MoveTransfer(w: TrxId, from: set<State>, st: State, f: Foreign)
      requires w in records && records[w].relate in records
      modifies this`records
      ensures records == MoveFamily(old(records), w, from, st, f)
    {
      hide MoveRelated, Touch;
      var o := records[w].relate;
      records := records[w := Touch(records[w], st, f)];
      records := records[o := Touch(records[o], st, f)];
      MoveRange(w, from, st, f);
    }

    /** A record of this kind, in this state. */
    method Finds(x: TrxId, k: Kind, st: State) returns (ok: bool)
      ensures ok == Is(records, x, k, st)
    {
      ok := x in records && records[x].kind == k && records[x].state == st;
    }

    /** The two look-ups behind a record that refers to an unsigned transaction. */
    method FindsLinks(x: TrxId) returns (ok: bool)
      requires x in records
      ensures ok == Linked(records, x)
    {
      ok := records[x].relate in records;
      if ok {
        ok := records[records[x].relate].relate in records;
      }
    }

    /** The checks of the evaluators. */
    method Check(step: Step) returns (ok: bool)
      ensures ok == Allowed(records, step)
    {
      hide IsEth, Is, Linked, ResultKey;
      match step
      case Request(id, _) => ok := id != 0 && id !in records;
      case Unsigned(id, o) =>
        ok := Finds(o, Transfer, Uncreate);
        ok := ok && id != 0 && id !in records;
      case Signature(id, w) =>
        var related := set x <- records | records[x].relate == w;
        ok := AllPass(records, related, (r: Record) => r.state in {Create, Sign});
        ok := ok && id != 0 && id !in records && w in records && records[w].kind == WithoutSign;
      case Combine(id, w, _, _) => ok := CheckUnsigned(id, w);
      case Finalize(id, kind, c, _, _) =>
        ok := CheckLinked(id, c, CombineSign, EthNeedSign);
        ok := ok && kind in {SignFinal, ChangeSigner};
      case Result(c, foreign, symbol, used) => ok := CheckResult(c, foreign, symbol, used);
      case Pass(c) =>
        ok := Finds(c, CombineSign, CombineCreate);
        if ok {
          IsThere(records, c, CombineSign, CombineCreate);
          ok := FindsLinks(c);
        }
      case CancelRequest(id, o) =>
        ok := Finds(o, Transfer, Uncreate);
        ok := ok && id != 0 && id !in records;
      case CancelUnsigned(id, w) => ok := CheckUnsigned(id, w);
      case CancelCombine(id, c) => ok := CheckLinked(id, c, CombineSign, CombineCreate);
      case CancelFinal(id, f) => ok := CheckLinked(id, f, SignFinal, EthSign);
    }

    method CheckUnsigned(id: TrxId, w: TrxId) returns (ok: bool)
      ensures ok == (Fresh(records, id) && Is(records, w, WithoutSign, Create) && records[w].relate in records)
    {
      ok := Finds(w, WithoutSign, Create);
      ok := ok && records[w].relate in records && id != 0 && id !in records;
    }

    method CheckLinked(id: TrxId, x: TrxId, k: Kind, st: State) returns (ok: bool)
      ensures ok == (Fresh(records, id) && Is(records, x, k, st) && Linked(records, x))
    {
      ok := Finds(x, k, st);
      if ok {
        ok := FindsLinks(x);
      }
      ok := ok && id != 0 && id !in records;
    }

    /** The result finds its combination by foreign id, tests its state by its own symbol, and wants a free id. */
    method CheckResult(c: TrxId, foreign: string, symbol: string, used: set<string>) returns (ok: bool)
      ensures ok == Allowed(records, Result(c, foreign, symbol, used))
    {
      hide IsEth, ResultKey, Linked;
      var key := ResultKey(symbol, foreign);
      if c !in records || records[c].kind != CombineSign || records[c].foreign != key {
        return false;
      }
      if IsEth(symbol) && records[c].state != EthSign {
        return false;
      }
      ok := FindsLinks(c);
      ok := ok && key !in used;
    }

    /** A step behind the checks of its evaluator. */
    method Adjust(step: Step) returns (ok: bool)
      modifies this`records
      ensures ok == Allowed(old(records), step) && records == Next(old(records), step)
      ensures Invariant(old(records)) && Steady(old(records), step) ==> Invariant(records)
    {
      hide Allowed, Apply, Invariant, Steady;
      ok := Check(step);
      if ok {
        ghost var before := records;
        Perform(step);
        if Invariant(before) && Steady(before, step) {
          StepKeeps(before, step);
        }
      }
    }

    /** adjust_coldhot_transaction. */
    method Perform(step: Step)
      requires Allowed(records, step)
      modifies this`records
      ensures records == Apply(old(records), step)
    {
      hide MoveFamily, Touch, IsEth, CombinesAsEth, ANY;
      match step
      case Request(id, symbol) =>
        records := records[id := Record(Transfer, 0, Uncreate, "", symbol)];
      case Unsigned(id, o) =>
        var symbol := records[o].symbol;
        records := records[o := Touch(records[o], Create, Keep)];
        records := records[id := Record(WithoutSign, o, Create, "", symbol)];
      case Signature(id, w) =>
        records := records[id := Record(WithSign, w, Sign, "", records[w].symbol)];
      case Combine(id, w, foreign, symbol) =>
        MoveTransfer(w, {Sign}, CombineState(symbol), Keep);
        records := records[id := Record(CombineSign, w, CombineState(symbol), foreign, symbol)];
      case Finalize(id, kind, c, foreign, symbol) =>
        var w, key := records[c].relate, AfterBar(foreign);
        records := records[c := Touch(records[c], EthSign, Set(key))];
        MoveTransfer(w, {EthNeedSign}, EthSign, Set(key));
        records := records[id := Record(kind, w, EthSign, key, symbol)];
      case Result(c, _, _, _) =>
        MoveTransfer(records[c].relate, {CombineCreate, EthSign}, Confirm, Keep);
      case Pass(c) =>
        var w := records[c].relate;
        records := records[c := Touch(records[c], Confirm, Keep)];
        MoveTransfer(w, ANY, Confirm, Keep);
      case CancelRequest(id, o) =>
        var symbol := records[o].symbol;
        records := records[o := Touch(records[o], Fail, Keep)];
        records := records[id := Record(CancelTransfer, o, Fail, "", symbol)];
      case CancelUnsigned(id, w) =>
        var symbol := records[records[w].relate].symbol;
        MoveTransfer(w, ANY, Fail, Keep);
        records := records[id := Record(CancelUncombined, w, Fail, "", symbol)];
      case CancelCombine(id, c) =>
        var w, symbol := records[c].relate, records[records[c].relate].symbol;
        records := records[c := Touch(records[c], Fail, Keep)];
        MoveTransfer(w, ANY, Fail, Keep);
        records := records[id := Record(CancelCombined, c, Fail, "", symbol)];
      case CancelFinal(id, f) =>
        var w, symbol := records[f].relate, records[records[f].relate].symbol;
        records := records[f := Touch(records[f], Fail, Keep)];
        MoveTransfer(w, ANY, Fail, Keep);
        records := records[id := Record(EthCancel, w, Fail, "", symbol)];
    }
  }
}
