/** The records of one cold/hot transfer move together. */
module ColdHotLaws {
  import opened Wrappers
  import opened ForeignIds
  import opened ColdHotSpec

  /** The kinds of record that refer to an unsigned transaction. */
  predicate Refers(k: Kind) {
    k in {WithSign, CombineSign, SignFinal, ChangeSigner, CancelUncombined, EthCancel}
  }

  /** An unsigned transaction, its request, and what was signed or decided for it. */
  predicate InFamily(records: Records, w: TrxId, x: TrxId)
    requires w in records && x in records
  {
    x == w || x == records[w].relate || (records[x].relate == w && Refers(records[x].kind))
  }

  predicate Stage(st: State) {
    st in {Create, CombineCreate, EthNeedSign, EthSign, Confirm, Fail}
  }

  /** The state of a referring record, given the state of its unsigned transaction. */
  function Follows(k: Kind, unsigned: State): State {
    if k == WithSign && unsigned == Create then Sign else unsigned
  }

  /** What is asked of one record: requests stand alone, everything else is in step with what it refers to. */
  predicate InStep(records: Records, x: TrxId)
    requires x in records
  {
    var r := records[x];
    && x != 0
    && (r.kind == Transfer ==> r.relate == 0)
    && (r.kind == WithoutSign ==> Stage(r.state) && r.relate in records && records[r.relate].kind == Transfer
                                  && records[r.relate].state == r.state)
    && (Refers(r.kind) ==> r.relate in records && records[r.relate].kind == WithoutSign
                           && r.state == Follows(r.kind, records[r.relate].state)
                           && (r.kind != WithSign ==> r.state != Create))
    && (r.kind == CancelTransfer ==> r.relate in records && records[r.relate].kind == Transfer)
    && (r.kind == CancelCombined ==> r.relate in records && records[r.relate].kind == CombineSign)
  }

  predicate OneUnsigned(records: Records) {
    forall v <- records, w <- records ::
      records[v].kind == records[w].kind == WithoutSign && records[v].relate == records[w].relate ==> v == w
  }

  /** Every transfer is in one state with all its records. */
  predicate Families(records: Records) {
    (forall x <- records :: InStep(records, x)) && OneUnsigned(records)
  }

  /** Some record other than a signature refers to w. */
  predicate Decided(records: Records, w: TrxId) {
    exists c <- records :: records[c].relate == w && Refers(records[c].kind) && records[c].kind != WithSign
  }

  /** An unsigned transaction is past its creation only by a record that says so. */
  predicate Advanced(records: Records) {
    forall w <- records :: records[w].kind == WithoutSign && records[w].state != Create ==> Decided(records, w)
  }

  predicate Invariant(records: Records) {
    Families(records) && Advanced(records)
  }

  // ---- moving a family ----

  ghost predicate MovesAt(records: Records, x: TrxId, r: Record, w: TrxId, st: State)
    requires w in records && x in records
  {
    && r == records[x].(state := r.state, foreign := r.foreign)
    && r.state == if InFamily(records, w, x) then st else records[x].state
  }

  /** r is records with exactly the family of w moved to st. */
  ghost predicate Moves(records: Records, r: Records, w: TrxId, st: State)
    requires w in records
  {
    r.Keys == records.Keys && forall x <- records :: MovesAt(records, x, r[x], w, st)
  }

  function Rewritten(records: Records, w: TrxId, x: TrxId, from: set<State>, st: State, f: Foreign): Record
    requires w in records && x in records
  {
    var a := if x == w || x == records[w].relate then Touch(records[x], st, f) else records[x];
    if a.relate == w && a.state in from then Touch(a, st, f) else a
  }

  lemma MoveFamilyAt(records: Records, w: TrxId, from: set<State>, st: State, f: Foreign)
    requires w in records && records[w].relate in records && records[w].relate != w
    ensures var r := MoveFamily(records, w, from, st, f);
      r.Keys == records.Keys && forall x <- records :: r[x] == Rewritten(records, w, x, from, st, f)
  {
    hide Touch;
  }

  lemma RewrittenMoves(records: Records, w: TrxId, x: TrxId, from: set<State>, st: State, f: Foreign)
    requires w in records && records[w].kind == WithoutSign && x in records && InStep(records, w) && InStep(records, x)
    requires Refers(records[x].kind) && records[x].relate == w ==> records[x].state in from + {st}
    ensures MovesAt(records, x, Rewritten(records, w, x, from, st, f), w, st)
  {}

  /** The rewriting reaches the whole family when it looks for the state the referring records are in. */
  lemma MoveFamilyMoves(records: Records, w: TrxId, from: set<State>, st: State, f: Foreign)
    requires Families(records) && w in records && records[w].kind == WithoutSign && records[w].relate in records
    requires (if records[w].state == Create then Sign else records[w].state) in from + {st}
    ensures Moves(records, MoveFamily(records, w, from, st, f), w, st)
  {
    hide InStep, MovesAt, Rewritten, MoveFamily, OneUnsigned;
    assert InStep(records, w);
    UnsignedApart(records, w);
    MoveFamilyAt(records, w, from, st, f);
    forall x <- records ensures MovesAt(records, x, MoveFamily(records, w, from, st, f)[x], w, st) {
      assert InStep(records, x);
      ReferrerState(records, w, x);
      RewrittenMoves(records, w, x, from, st, f);
    }
  }

  lemma UnsignedApart(records: Records, w: TrxId)
    requires w in records && records[w].kind == WithoutSign && InStep(records, w)
    ensures records[w].relate != w
  {}

  lemma ReferrerState(records: Records, w: TrxId, x: TrxId)
    requires w in records && x in records && InStep(records, x) && records[w].kind == WithoutSign
    ensures Refers(records[x].kind) && records[x].relate == w ==>
      records[x].state == Follows(records[x].kind, records[w].state)
      && (records[w].state == Create ==> records[x].state == Sign)
  {}

  // ---- a moved family is in step ----

  lemma MovedInStep(records: Records, r: Records, w: TrxId, st: State, x: TrxId)
    requires Families(records) && w in records && records[w].kind == WithoutSign && Moves(records, r, w, st)
    requires Stage(st) && st != Create && x in records
    ensures InStep(r, x)
  {
    hide OneUnsigned;
    assert InStep(records, x) && InStep(records, w) && MovesAt(records, x, r[x], w, st);
    var v := records[x].relate;
    if v in records {
      assert InStep(records, v) && MovesAt(records, v, r[v], w, st);
      if records[x].kind == WithoutSign && x != w {
        assert OneUnsigned(records);
        OtherUnsigned(records, w, x);
      }
    }
  }

  lemma OtherUnsigned(records: Records, w: TrxId, x: TrxId)
    requires Families(records) && w in records && x in records && w != x
    requires records[w].kind == records[x].kind == WithoutSign
    ensures !InFamily(records, w, x) && records[x].relate in records && !InFamily(records, w, records[x].relate)
  {
    assert InStep(records, x) && InStep(records, w) && InStep(records, records[x].relate);
  }

  lemma MovesKeepsFamilies(records: Records, r: Records, w: TrxId, st: State)
    requires Families(records) && w in records && records[w].kind == WithoutSign && Moves(records, r, w, st)
    requires Stage(st) && st != Create
    ensures Families(r)
  {
    hide InStep, InFamily;
    forall x <- r ensures InStep(r, x) {
      MovedInStep(records, r, w, st, x);
    }
    forall x <- records ensures r[x].kind == records[x].kind && r[x].relate == records[x].relate {
      assert MovesAt(records, x, r[x], w, st);
    }
  }

  lemma MovesShape(records: Records, r: Records, w: TrxId, st: State)
    requires w in records && Moves(records, r, w, st)
    ensures r.Keys == records.Keys && r[w].state == st
    ensures forall x <- records :: r[x].kind == records[x].kind && r[x].relate == records[x].relate
  {
    assert MovesAt(records, w, r[w], w, st) && InFamily(records, w, w);
    forall x <- records ensures r[x].kind == records[x].kind && r[x].relate == records[x].relate {
      assert MovesAt(records, x, r[x], w, st);
    }
  }

  // ---- new records ----

  lemma AddKeepsFamilies(records: Records, id: TrxId, rec: Record)
    requires Families(records) && Fresh(records, id) && InStep(records[id := rec], id)
    requires rec.kind == WithoutSign ==> forall w <- records ::
      records[w].kind == WithoutSign ==> records[w].relate != rec.relate
    ensures Families(records[id := rec])
  {
    hide InStep;
    var r := records[id := rec];
    forall x <- r ensures InStep(r, x) {
      if x != id {
        AddedInStep(records, id, rec, x);
      }
    }
  }

  lemma AddedInStep(records: Records, id: TrxId, rec: Record, x: TrxId)
    requires Families(records) && Fresh(records, id) && x in records
    ensures InStep(records[id := rec], x)
  {
    hide OneUnsigned;
    assert InStep(records, x);
  }

  lemma StillDecided(records: Records, r: Records, w: TrxId)
    requires Decided(records, w)
    requires forall x <- records :: x in r && r[x].kind == records[x].kind && r[x].relate == records[x].relate
    ensures Decided(r, w)
  {
    var c :| c in records && records[c].relate == w && Refers(records[c].kind) && records[c].kind != WithSign;
    assert c in r && r[c].relate == w && Refers(r[c].kind) && r[c].kind != WithSign;
  }

  lemma AddedAdvanced(records: Records, id: TrxId, rec: Record)
    requires Advanced(records) && id !in records && (rec.kind == WithoutSign ==> rec.state == Create)
    ensures Advanced(records[id := rec])
  {
    hide Decided;
    var r := records[id := rec];
    forall w <- r | r[w].kind == WithoutSign && r[w].state != Create ensures Decided(r, w) {
      StillDecided(records, r, w);
    }
  }

  /** A step that moves one family and adds a record that decides about it. */
  lemma MovesAdvanced(records: Records, base: Records, w: TrxId, st: State, r: Records)
    requires Families(records) && Advanced(records) && w in records && records[w].kind == WithoutSign
    requires Moves(records, base, w, st)
    requires forall x <- base :: x in r && r[x] == base[x]
    requires forall x <- r :: x in base || r[x].kind != WithoutSign
    requires Decided(r, w)
    ensures Advanced(r)
  {
    hide InStep, OneUnsigned, Decided;
    MovesShape(records, base, w, st);
    forall v <- r | r[v].kind == WithoutSign && r[v].state != Create ensures Decided(r, v) {
      assert MovesAt(records, v, base[v], w, st);
      if v != w {
        OtherUnsigned(records, w, v);
        StillDecided(records, r, v);
      }
    }
  }

  /** Moving a family and recording the decision keeps the invariant. */
  lemma DecideKeeps(records: Records, base: Records, w: TrxId, st: State, id: TrxId, rec: Record)
    requires Invariant(records) && w in records && records[w].kind == WithoutSign && Moves(records, base, w, st)
    requires Stage(st) && st != Create && Fresh(records, id)
    requires (Refers(rec.kind) && rec.kind != WithSign && rec.relate == w && rec.state == st)
      || (rec.kind == CancelCombined && rec.relate in records && records[rec.relate].kind == CombineSign
          && Decided(records, w))
    ensures Invariant(base[id := rec])
  {
    hide Families, Advanced, InStep, Moves, Decided;
    MovesKeepsFamilies(records, base, w, st);
    MovesShape(records, base, w, st);
    var r := base[id := rec];
    assert InStep(r, id) by { NewInStep(base, id, rec); }
    AddKeepsFamilies(base, id, rec);
    assert Decided(r, w) by {
      if rec.kind == CancelCombined {
        StillDecided(records, r, w);
      } else {
        NowDecided(r, w, id);
      }
    }
    MovesAdvanced(records, base, w, st, r);
  }

  lemma NowDecided(r: Records, w: TrxId, id: TrxId)
    requires id in r && r[id].relate == w && Refers(r[id].kind) && r[id].kind != WithSign
    ensures Decided(r, w)
  {}

  lemma NewInStep(base: Records, id: TrxId, rec: Record)
    requires Fresh(base, id) && rec.relate in base && rec.relate != id
    requires (Refers(rec.kind) && rec.kind != WithSign && base[rec.relate].kind == WithoutSign
              && rec.state == base[rec.relate].state != Create)
      || (rec.kind == CancelCombined && base[rec.relate].kind == CombineSign)
    ensures InStep(base[id := rec], id)
  {}

  /** The combination or final signature that a step names has its transfer behind it. */
  lemma ReferrerOf(records: Records, c: TrxId)
    requires Invariant(records) && c in records && Refers(records[c].kind) && records[c].kind != WithSign
    ensures var w := records[c].relate;
      && w in records && records[w].kind == WithoutSign && records[w].state == records[c].state
      && records[w].relate in records
      && w != c && records[w].relate != c && Decided(records, w) && InStep(records, w) && records[c].state != Create
  {
    hide OneUnsigned, Advanced;
    assert InStep(records, c);
    assert InStep(records, records[c].relate);
    NowDecided(records, records[c].relate, c);
  }

  /** Moving the named record first makes no difference to a family that moves as a whole. */
  lemma MoveNamedFirst(records: Records, c: TrxId, from: set<State>, st: State, f: Foreign)
    requires Invariant(records) && c in records && Refers(records[c].kind) && records[c].kind != WithSign
    requires records[c].state in from
    ensures records[c].relate in records && records[records[c].relate].kind == WithoutSign
    ensures records[records[c].relate].relate in records
    ensures var w := records[c].relate;
      Moves(records, MoveFamily(MoveOne(records, c, st, f), w, from, st, f), w, st)
  {
    hide InStep, MovesAt, OneUnsigned, MoveFamily, Families, Advanced, Rewritten;
    ReferrerOf(records, c);
    var w := records[c].relate;
    var one := MoveOne(records, c, st, f);
    MoveFamilyMoves(records, w, from, st, f);
    UnsignedApart(records, w);
    MoveFamilyAt(records, w, from, st, f);
    MoveFamilyAt(one, w, from, st, f);
    forall x <- records ensures MovesAt(records, x, MoveFamily(one, w, from, st, f)[x], w, st) {
      assert MovesAt(records, x, MoveFamily(records, w, from, st, f)[x], w, st);
      NamedFirstAt(records, c, x, from, st, f);
    }
  }

  lemma NamedFirstAt(records: Records, c: TrxId, x: TrxId, from: set<State>, st: State, f: Foreign)
    requires c in records && x in records && records[c].relate in records && records[c].state in from
    requires c != records[c].relate && records[records[c].relate].relate != c
    ensures Rewritten(MoveOne(records, c, st, f), records[c].relate, x, from, st, f)
      == Rewritten(records, records[c].relate, x, from, st, f)
  {}

  // ---- steps ----

  /**
   * The result operation looks at the state of the combination only if its own symbol is ETH or an ERC token. It
   * keeps the family in step unless the combination was cancelled, or still awaits its ETH signature.
   */
  predicate Steady(records: Records, step: Step) {
    step.Result? && step.combine in records ==> records[step.combine].state !in {Fail, EthNeedSign}
  }

  lemma OpensFamily(records: Records, step: Step)
    requires Invariant(records) && Allowed(records, step)
    requires (step.Request? || step.Unsigned? || step.CancelRequest? || step.Signature?)
    ensures Invariant(Apply(records, step))
  {
    hide Families, Advanced, Decided, InStep;
    match step
    case Request(id, symbol) =>
      var rec := Record(Transfer, 0, Uncreate, "", symbol);
      assert InStep(records[id := rec], id) by { AloneInStep(records, id, rec); }
      AddKeepsFamilies(records, id, rec);
      AddedAdvanced(records, id, rec);
    case Unsigned(id, o) => UnsignedKeeps(records, id, o);
    case CancelRequest(id, o) =>
      LoneRequest(records, o, Fail);
      var base := MoveOne(records, o, Fail, Keep);
      var rec := Record(CancelTransfer, o, Fail, "", records[o].symbol);
      assert InStep(base[id := rec], id) by { AloneInStep(base, id, rec); }
      AddKeepsFamilies(base, id, rec);
      AddedAdvanced(base, id, rec);
    case Signature(id, w) => SignatureKeeps(records, id, w);
  }

  lemma AloneInStep(records: Records, id: TrxId, rec: Record)
    requires Fresh(records, id)
    requires (rec.kind == Transfer && rec.relate == 0)
      || (rec.kind == CancelTransfer && rec.relate in records && records[rec.relate].kind == Transfer)
    ensures InStep(records[id := rec], id)
  {}

  /** A request that nothing was made of is in no family. */
  lemma LoneRequest(records: Records, o: TrxId, st: State)
    requires Invariant(records) && Is(records, o, Transfer, Uncreate)
    ensures Invariant(MoveOne(records, o, st, Keep))
    ensures forall w <- records :: records[w].kind == WithoutSign ==> records[w].relate != o
  {
    hide OneUnsigned, Decided;
    var r := MoveOne(records, o, st, Keep);
    forall x <- r ensures InStep(r, x) {
      assert InStep(records, x);
    }
    forall w <- records | records[w].kind == WithoutSign ensures records[w].relate != o {
      assert InStep(records, w);
    }
    assert OneUnsigned(r) by { SameKinds(records, r); }
    forall w <- r | r[w].kind == WithoutSign && r[w].state != Create ensures Decided(r, w) {
      StillDecided(records, r, w);
    }
  }

  lemma SameKinds(records: Records, r: Records)
    requires OneUnsigned(records) && r.Keys == records.Keys
    requires forall x <- records :: r[x].kind == records[x].kind && r[x].relate == records[x].relate
    ensures OneUnsigned(r)
  {}

  lemma UnsignedKeeps(records: Records, id: TrxId, o: TrxId)
    requires Invariant(records) && Allowed(records, Unsigned(id, o))
    ensures Invariant(Apply(records, Unsigned(id, o)))
  {
    hide Families, Advanced, InStep;
    LoneRequest(records, o, Create);
    var base := MoveOne(records, o, Create, Keep);
    var rec := Record(WithoutSign, o, Create, "", records[o].symbol);
    assert InStep(base[id := rec], id) by { UnsignedInStep(base, id, rec); }
    AddKeepsFamilies(base, id, rec);
    AddedAdvanced(base, id, rec);
  }

  lemma UnsignedInStep(records: Records, id: TrxId, rec: Record)
    requires Fresh(records, id) && rec.kind == WithoutSign && rec.state == Create
    requires rec.relate in records && records[rec.relate].kind == Transfer && records[rec.relate].state == Create
    ensures InStep(records[id := rec], id)
  {}

  lemma SignatureKeeps(records: Records, id: TrxId, w: TrxId)
    requires Invariant(records) && Allowed(records, Signature(id, w))
    ensures Invariant(Apply(records, Signature(id, w)))
  {
    hide Advanced, OneUnsigned;
    SignedIsNew(records, id, w);
    var rec := Record(WithSign, w, Sign, "", records[w].symbol);
    AddKeepsFamilies(records, id, rec);
    AddedAdvanced(records, id, rec);
  }

  /** Signatures are only taken before the combination. */
  lemma SignedIsNew(records: Records, id: TrxId, w: TrxId)
    requires Invariant(records) && Allowed(records, Signature(id, w))
    ensures records[w].state == Create
  {
    hide OneUnsigned;
    forall c <- records | Refers(records[c].kind) && records[c].kind != WithSign ensures records[c].relate != w {
      assert InStep(records, c) && (records[c].relate in records ==> InStep(records, records[c].relate));
    }
  }

  lemma MovesFamilyStep(records: Records, step: Step)
    requires Invariant(records) && Allowed(records, step) && Steady(records, step)
    requires step.Combine? || step.CancelUnsigned? || step.Finalize? || step.CancelCombine? || step.CancelFinal?
    ensures Invariant(Apply(records, step))
  {
    hide Families, Advanced, Decided, InStep, Moves, MoveFamily, Touch, OneUnsigned, CombinesAsEth;
    match step
    case Combine(id, w, foreign, symbol) =>
      var st := CombineState(symbol);
      FamiliesOf(records);
      MoveFamilyMoves(records, w, {Sign}, st, Keep);
      DecideKeeps(records, MoveFamily(records, w, {Sign}, st, Keep), w, st, id,
                  Record(CombineSign, w, st, foreign, symbol));
    case CancelUnsigned(id, w) =>
      FamiliesOf(records);
      MoveFamilyMoves(records, w, ANY, Fail, Keep);
      DecideKeeps(records, MoveFamily(records, w, ANY, Fail, Keep), w, Fail, id,
                  Record(CancelUncombined, w, Fail, "", records[records[w].relate].symbol));
    case Finalize(id, kind, c, foreign, symbol) =>
      var w, key := records[c].relate, AfterBar(foreign);
      MoveNamedFirst(records, c, {EthNeedSign}, EthSign, Set(key));
      DecideKeeps(records, MoveFamily(MoveOne(records, c, EthSign, Set(key)), w, {EthNeedSign}, EthSign, Set(key)),
                  w, EthSign, id,
                  Record(kind, w, EthSign, key, symbol));
    case CancelCombine(id, c) =>
      ReferrerOf(records, c);
      MoveNamedFirst(records, c, ANY, Fail, Keep);
      DecideKeeps(records, MoveFamily(MoveOne(records, c, Fail, Keep), records[c].relate, ANY, Fail, Keep),
                  records[c].relate, Fail, id,
                  Record(CancelCombined, c, Fail, "", records[records[c].relate].symbol));
    case CancelFinal(id, f) =>
      MoveNamedFirst(records, f, ANY, Fail, Keep);
      DecideKeeps(records, MoveFamily(MoveOne(records, f, Fail, Keep), records[f].relate, ANY, Fail, Keep),
                  records[f].relate, Fail, id,
                  Record(EthCancel, records[f].relate, Fail, "", records[records[f].relate].symbol));
  }

  lemma FamiliesOf(records: Records)
    requires Invariant(records)
    ensures Families(records)
  {}

  lemma ConfirmKeeps(records: Records, step: Step)
    requires Invariant(records) && Allowed(records, step) && Steady(records, step) && (step.Result? || step.Pass?)
    ensures Invariant(Apply(records, step))
    ensures Moves(records, Apply(records, step), records[step.combine].relate, Confirm)
  {
    hide Families, Advanced, Decided, InStep, Moves, MoveFamily, Touch, OneUnsigned, IsEth;
    var c := step.combine;
    var w, r := records[c].relate, Apply(records, step);
    ReferrerOf(records, c);
    if step.Result? {
      FamiliesOf(records);
      CombineStates(records, c);
      MoveFamilyMoves(records, w, {CombineCreate, EthSign}, Confirm, Keep);
    } else {
      MoveNamedFirst(records, c, ANY, Confirm, Keep);
    }
    MovesKeepsFamilies(records, r, w, Confirm);
    MovesShape(records, r, w, Confirm);
    StillDecided(records, r, w);
    MovesAdvanced(records, r, w, Confirm, r);
  }

  lemma CombineStates(records: Records, c: TrxId)
    requires Families(records) && c in records && records[c].kind == CombineSign
    ensures records[c].state in {CombineCreate, EthNeedSign, EthSign, Confirm, Fail}
  {
    assert InStep(records, c) && InStep(records, records[c].relate);
  }

  lemma StepKeeps(records: Records, step: Step)
    requires Invariant(records) && Allowed(records, step) && Steady(records, step)
    ensures Invariant(Apply(records, step))
  {
    hide Invariant, Apply, Steady;
    if step.Result? || step.Pass? {
      ConfirmKeeps(records, step);
    } else if step.Request? || step.Unsigned? || step.CancelRequest? || step.Signature? {
      OpensFamily(records, step);
    } else {
      MovesFamilyStep(records, step);
    }
  }

  /** Where a step that decides about a combination, a final signature or an unsigned transaction leaves the family. */
  function Decision(step: Step): Option<State> {
    match step
    case Combine(_, _, _, symbol) => Some(if CombinesAsEth(symbol) then EthNeedSign else CombineCreate)
    case Finalize(_, _, _, _, _) => Some(EthSign)
    case Result(_, _, _, _) => Some(Confirm)
    case Pass(_) => Some(Confirm)
    case CancelUnsigned(_, _) => Some(Fail)
    case CancelCombine(_, _) => Some(Fail)
    case CancelFinal(_, _) => Some(Fail)
    case _ => None
  }

  /** The unsigned transaction such a step is about. */
  function Subject(records: Records, step: Step): TrxId
    requires Allowed(records, step) && Decision(step).Some?
  {
    match step
    case Combine(_, w, _, _) => w
    case CancelUnsigned(_, w) => w
    case Finalize(_, _, c, _, _) => records[c].relate
    case Result(c, _, _, _) => records[c].relate
    case Pass(c) => records[c].relate
    case CancelCombine(_, c) => records[c].relate
    case CancelFinal(_, f) => records[f].relate
  }

  /** The record a step adds: its kind, what it refers to, its state. */
  function Added(records: Records, step: Step): Option<(TrxId, Kind, TrxId, State)>
    requires Allowed(records, step)
  {
    match step
    case Request(id, _) => Some((id, Transfer, 0, Uncreate))
    case Unsigned(id, o) => Some((id, WithoutSign, o, Create))
    case Signature(id, w) => Some((id, WithSign, w, Sign))
    case Combine(id, w, _, symbol) =>
      Some((id, CombineSign, w, if CombinesAsEth(symbol) then EthNeedSign else CombineCreate))
    case Finalize(id, kind, c, _, _) => Some((id, kind, records[c].relate, EthSign))
    case Result(_, _, _, _) => None
    case Pass(_) => None
    case CancelRequest(id, o) => Some((id, CancelTransfer, o, Fail))
    case CancelUnsigned(id, w) => Some((id, CancelUncombined, w, Fail))
    case CancelCombine(id, c) => Some((id, CancelCombined, c, Fail))
    case CancelFinal(id, f) => Some((id, EthCancel, records[f].relate, Fail))
  }

  lemma MoveKeys(records: Records, w: TrxId, from: set<State>, st: State, f: Foreign)
    requires w in records && records[w].relate in records
    ensures MoveFamily(records, w, from, st, f).Keys == records.Keys
  {
    hide Touch;
  }

  lemma StepAdds(records: Records, step: Step)
    requires Allowed(records, step)
    ensures var r, added := Apply(records, step), Added(records, step);
      match added
      case None => r.Keys == records.Keys
      case Some((id, kind, relate, state)) =>
        && id !in records && r.Keys == records.Keys + {id}
        && r[id].kind == kind && r[id].relate == relate && r[id].state == state
  {
    hide IsEth, CombinesAsEth, ResultKey, MoveFamily, AfterBar;
    match step
    case Combine(_, w, _, symbol) => MoveKeys(records, w, {Sign}, CombineState(symbol), Keep);
    case Finalize(_, _, c, foreign, _) =>
      MoveKeys(MoveOne(records, c, EthSign, Set(AfterBar(foreign))), records[c].relate, {EthNeedSign}, EthSign,
               Set(AfterBar(foreign)));
    case Result(c, _, _, _) => MoveKeys(records, records[c].relate, {CombineCreate, EthSign}, Confirm, Keep);
    case Pass(c) => MoveKeys(MoveOne(records, c, Confirm, Keep), records[c].relate, ANY, Confirm, Keep);
    case CancelUnsigned(_, w) => MoveKeys(records, w, ANY, Fail, Keep);
    case CancelCombine(_, c) => MoveKeys(MoveOne(records, c, Fail, Keep), records[c].relate, ANY, Fail, Keep);
    case CancelFinal(_, f) => MoveKeys(MoveOne(records, f, Fail, Keep), records[f].relate, ANY, Fail, Keep);
    case _ =>
  }

  /** Every steady step that decides about a transfer moves exactly its family, to the state of the decision. */
  lemma StepDecides(records: Records, step: Step)
    requires Invariant(records) && Allowed(records, step) && Steady(records, step) && Decision(step).Some?
    ensures var r, w := Apply(records, step), Subject(records, step);
      && w in records && (forall x <- records :: x in r)
      && Moves(records, map x <- records :: r[x], w, Decision(step).value)
  {
    hide Families, Advanced, Decided, InStep, MovesAt, MoveFamily, Touch, OneUnsigned, CombinesAsEth, IsEth, ResultKey;
    match step
    case Combine(id, w, foreign, symbol) =>
      FamiliesOf(records);
      MoveFamilyMoves(records, w, {Sign}, CombineState(symbol), Keep);
    case CancelUnsigned(id, w) =>
      FamiliesOf(records);
      MoveFamilyMoves(records, w, ANY, Fail, Keep);
    case Finalize(id, kind, c, foreign, symbol) =>
      MoveNamedFirst(records, c, {EthNeedSign}, EthSign, Set(AfterBar(foreign)));
    case CancelCombine(id, c) =>
      MoveNamedFirst(records, c, ANY, Fail, Keep);
    case CancelFinal(id, f) =>
      MoveNamedFirst(records, f, ANY, Fail, Keep);
    case Result(_, _, _, _) => ConfirmKeeps(records, step);
    case Pass(_) => ConfirmKeeps(records, step);
  }

  /** Exactly the steady results keep the family together. */
  lemma ResultKeepsIff(records: Records, step: Step)
    requires Invariant(records) && Allowed(records, step) && step.Result?
    ensures Families(Apply(records, step)) <==> Steady(records, step)
  {
    hide Advanced, OneUnsigned, IsEth, Families, InStep;
    if Steady(records, step) {
      StepKeeps(records, step);
    } else {
      TornResult(records, step);
    }
  }

  lemma TornResult(records: Records, step: Step)
    requires Invariant(records) && Allowed(records, step) && step.Result? && !Steady(records, step)
    ensures !Families(Apply(records, step))
  {
    hide Advanced, OneUnsigned, IsEth, MoveFamily, InStep;
    var c, r := step.combine, Apply(records, step);
    var w := records[c].relate;
    ReferrerOf(records, c);
    UnsignedApart(records, w);
    MoveFamilyAt(records, w, {CombineCreate, EthSign}, Confirm, Keep);
    assert !InStep(r, c) by { OutOfStep(r, c); }
  }

  lemma OutOfStep(r: Records, c: TrxId)
    requires c in r && r[c].kind == CombineSign && r[c].relate in r && r[c].state != r[r[c].relate].state
    ensures !InStep(r, c)
  {}

  /**
   * From the combination on, the request, the unsigned transaction and everything that refers to it share one
   * state.
   */
  lemma FamilyShares(records: Records, w: TrxId, x: TrxId)
    requires Invariant(records) && w in records && records[w].kind == WithoutSign && records[w].state != Create
    requires x in records && InFamily(records, w, x)
    ensures records[x].state == records[w].state
  {
    hide Advanced, OneUnsigned;
    assert InStep(records, w) && InStep(records, x);
  }

  function Next(records: Records, step: Step): Records {
    if Allowed(records, step) then Apply(records, step) else records
  }

  function Run(records: Records, steps: seq<Step>): Records
    decreases |steps|
  {
    if steps == [] then records else Run(Next(records, steps[0]), steps[1..])
  }

  /** Every result in the run finds its combination neither cancelled nor unsigned. */
  predicate SteadyRun(records: Records, steps: seq<Step>)
    decreases |steps|
  {
    steps == []
    || ((Allowed(records, steps[0]) ==> Steady(records, steps[0])) && SteadyRun(Next(records, steps[0]), steps[1..]))
  }

  lemma {:induction false} RunKeeps(records: Records, steps: seq<Step>)
    requires Invariant(records) && SteadyRun(records, steps)
    ensures Invariant(Run(records, steps))
    decreases |steps|
  {
    hide Invariant, Allowed, Apply, Steady;
    if steps != [] {
      if Allowed(records, steps[0]) {
        StepKeeps(records, steps[0]);
      }
      RunKeeps(Next(records, steps[0]), steps[1..]);
    }
  }

  /** Over every steady run from an empty database a transfer past its combination is in one state as a whole. */
  lemma RunShares(steps: seq<Step>, w: TrxId, x: TrxId)
    requires SteadyRun(map[], steps)
    requires var r := Run(map[], steps);
      w in r && x in r && r[w].kind == WithoutSign && r[w].state != Create && InFamily(r, w, x)
    ensures Run(map[], steps)[x].state == Run(map[], steps)[w].state
  {
    hide Run, SteadyRun, InFamily, Decided, InStep;
    RunKeeps(map[], steps);
    FamilyShares(Run(map[], steps), w, x);
  }

  lemma CancelledKeepsId(records: Records, id: TrxId, c: TrxId)
    requires Invariant(records) && Allowed(records, CancelCombine(id, c))
    ensures var r := Apply(records, CancelCombine(id, c)); c in r && r[c] == records[c].(state := Fail)
  {
    hide Families, Advanced, InStep, MoveFamily;
    ReferrerOf(records, c);
    var w := records[c].relate;
    UnsignedApart(records, w);
    MoveFamilyAt(MoveOne(records, c, Fail, Keep), w, ANY, Fail, Keep);
  }

  /**
   * Every combination that is cancelled can still be confirmed under any symbol outside the ETH family, as long as its
   * foreign id is not used, and is then torn.
   */
  lemma CancelledThenConfirmed(records: Records, id: TrxId, c: TrxId, symbol: string, used: set<string>)
    requires Invariant(records) && Allowed(records, CancelCombine(id, c)) && !IsEth(symbol)
    requires records[c].foreign !in used
    ensures var r, late := Apply(records, CancelCombine(id, c)), Result(c, records[c].foreign, symbol, used);
      Allowed(r, late) && !Families(Apply(r, late))
  {
    hide Families, Advanced, InStep, IsEth, MoveFamily;
    StepKeeps(records, CancelCombine(id, c));
    CancelledKeepsId(records, id, c);
    ReferrerOf(records, c);
    var r: Records := Apply(records, CancelCombine(id, c));
    ReferrerOf(r, c);
    TornResult(r, Result(c, records[c].foreign, symbol, used));
  }

  /** A BTC transfer that is combined. */
  function CombinedTransfer(): Records {
    map[1 := Record(Transfer, 0, CombineCreate, "", "BTC"), 2 := Record(WithoutSign, 1, CombineCreate, "", "BTC"),
        4 := Record(CombineSign, 2, CombineCreate, "f", "BTC")]
  }

  lemma CombinedTransferInvariant()
    ensures Invariant(CombinedTransfer())
  {
    hide InStep, CombinedTransfer;
    var r := CombinedTransfer();
    CombinedTransferKinds();
    forall x <- r ensures InStep(r, x) { CombinedTransferStep(x); }
    NowDecided(r, 2, 4);
  }

  lemma CombinedTransferKinds()
    ensures var r := CombinedTransfer(); 4 in r && r[4].relate == 2 && r[4].kind == CombineSign
    ensures forall x <- CombinedTransfer() :: CombinedTransfer()[x].kind == WithoutSign ==> x == 2
  {}

  lemma CombinedTransferStep(x: TrxId)
    requires x in CombinedTransfer()
    ensures InStep(CombinedTransfer(), x)
  {}

  /** The input: it is cancelled and then confirmed. */
  lemma TornTransferExists()
    ensures Invariant(CombinedTransfer()) && Allowed(CombinedTransfer(), CancelCombine(5, 4))
    ensures var r, late := Apply(CombinedTransfer(), CancelCombine(5, 4)), Result(4, "f", "BTC", {});
      Allowed(r, late) && !Families(Apply(r, late))
  {
    hide IsEth, MoveFamily, Invariant;
    BtcIsNotEth();
    CombinedTransferInvariant();
    CancelledThenConfirmed(CombinedTransfer(), 5, 4, "BTC", {});
  }
}
