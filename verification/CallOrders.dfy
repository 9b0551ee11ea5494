/** Runs of margin calls: which orders check_call_orders matches, in which order, and how it ends. */
module CallOrders {
  import opened Wrappers
  import opened MapSum
  import opened Ledger
  import opened MarketSpec
  import opened MarketRun
  import opened BlackSwan
  import opened Payments

  /** Where the two iterators are. */
  datatype At = At(i: nat, j: nat)

  /** The two price ranges: bids from the greatest price down, call orders from the least call price up. */
  datatype Book = Book(m: AssetId, bids: seq<OrderId>, queue: seq<OrderId>)

  predicate PairThere(l: Ledger, k: Book, c: At) {
    c.i < |k.bids| && c.j < |k.queue| && k.bids[c.i] in l.limits && k.queue[c.j] in l.calls
  }

  /** Neither the feed nor the bid is above the price at which the order may be called. */
  predicate Callable(l: Ledger, k: Book, c: At) {
    && PairThere(l, k, c) && k.m in l.bits && l.bits[k.m].feed.Some?
    && var limit := Inverse(l.calls[k.queue[c.j]].callPrice);
    && AtLeast(limit, l.bits[k.m].feed.value) && AtLeast(limit, l.limits[k.bids[c.i]].sellPrice)
  }

  /** At the price of the bid the debt costs more than the collateral. */
  predicate Short(l: Ledger, k: Book, c: At)
    requires PairThere(l, k, c)
  {
    var o := l.calls[k.queue[c.j]];
    var worth := Times(o.Debt(), l.limits[k.bids[c.i]].sellPrice);
    worth.Some? && worth.value.asset == o.Collateral().asset && worth.value.n > o.collateral
  }

  predicate FillsCall(l: Ledger, k: Book, c: At)
    requires PairThere(l, k, c)
  {
    l.calls[k.queue[c.j]].debt <= l.limits[k.bids[c.i]].forSale
  }

  predicate FillsBid(l: Ledger, k: Book, c: At)
    requires PairThere(l, k, c)
  {
    l.calls[k.queue[c.j]].debt >= l.limits[k.bids[c.i]].forSale
  }

  /** A pass makes a margin call that goes through; then the iterators move on past what is filled. */
  ghost predicate PassMade(assets: Assets, k: Book, b: Ledger, c: At, filled: bool, b': Ledger, d: At) {
    && k.m in b.bits && b.bits[k.m].settlement.None? && !SwanDeclared(b, k.m) && Callable(b, k, c) && !Short(b, k, c)
    && Apply(b, assets, CallMargin(k.queue[c.j], k.bids[c.i])) == Some(b')
    && d.j == c.j + (if FillsCall(b, k, c) then 1 else 0) && d.i == c.i + (if filled then 1 else 0)
  }

  /** Some pass up to n has filled its bid. As in the source, the flag for this is never reset. */
  ghost predicate BidFilled(k: Book, ls: seq<Ledger>, cs: seq<At>, n: nat)
    requires n < |ls| == |cs|
  {
    exists e :: 0 <= e <= n && PairThere(ls[e], k, cs[e]) && FillsBid(ls[e], k, cs[e])
  }

  /** A run of margin calls from l: the ledgers and places before each pass, and where it stops. */
  ghost predicate Follows(l: Ledger, assets: Assets, k: Book, ls: seq<Ledger>, cs: seq<At>) {
    && |ls| == |cs| > 0 && ls[0] == l && cs[0] == At(0, 0)
    && forall n ::
      0 <= n < |cs| - 1 ==> PassMade(assets, k, ls[n], cs[n], BidFilled(k, ls, cs, n), ls[n + 1], cs[n + 1])
  }

  /** The outcome of a test for a black swan that was declared: a settlement at what the first call order owes. */
  ghost predicate SwanEnds(l: Ledger, m: AssetId, enable: bool, ok: bool, r: Ledger) {
    exists first :: IsFirstCall(l, m, first) && SettledOrThrown(l, m, Owes(l.calls[first]), enable, ok, r)
  }

  ghost predicate SettledOrThrown(l: Ledger, m: AssetId, p: Price, enable: bool, ok: bool, r: Ledger) {
    m in l.bits && (ok <==> enable && Closable(l, m, p)) && (ok ==> GloballySettled(l, m, p, r))
  }

  /** How a run stops in l at c: by a settlement, by a pair that is not to be called, or by an exception. */
  ghost predicate Ends(l: Ledger, assets: Assets, k: Book, c: At, enable: bool, ok: bool, r: Ledger) {
    k.m in l.bits &&
    if l.bits[k.m].settlement.Some? then ok && r == l
    else if SwanDeclared(l, k.m) then SwanEnds(l, k.m, enable, ok, r)
    else if l.bits[k.m].prediction || !Callable(l, k, c) then ok && r == l
    else if Short(l, k, c) then SettledOrThrown(l, k.m, l.bits[k.m].feed.value, enable, ok, r)
    else !ok && MarginCall(l, assets, k.queue[c.j], k.bids[c.i]).None?
  }

  /** A margin call is made, or found too dear, exactly in these states. */
  ghost predicate Calls(l: Ledger, k: Book) {
    && k.m in l.bits && l.bits[k.m].settlement.None? && !l.bits[k.m].prediction && !SwanDeclared(l, k.m)
    && Callable(l, k, At(0, 0))
  }

  lemma SettledNow(l: Ledger, m: AssetId, p: Price, r: Ledger)
    requires m in l.bits && GloballySettled(l, m, p, r)
    ensures m in r.bits && r.bits[m].settlement.Some?
  {}

  lemma PassDone(assets: Assets, k: Book, b: Ledger, c: At, filled: bool, b': Ledger, d: At)
    requires k.m in b.bits && b.bits[k.m].settlement.None? && !SwanDeclared(b, k.m) && Callable(b, k, c)
    requires !Short(b, k, c)
    requires MarginCall(b, assets, k.queue[c.j], k.bids[c.i]).Some?
    requires b' == MarginCall(b, assets, k.queue[c.j], k.bids[c.i]).value.0
    requires d.j == c.j + (if FillsCall(b, k, c) then 1 else 0) && d.i == c.i + (if filled then 1 else 0)
    ensures PassMade(assets, k, b, c, filled, b', d)
  {
    hide MarginCall, SwanDeclared, Short;
  }

  // ---- endings ----

  lemma EndsEarly(l: Ledger, assets: Assets, k: Book, c: At, enable: bool, ok: bool, r: Ledger)
    requires k.m in l.bits
    ensures l.bits[k.m].settlement.Some? && ok && r == l ==> Ends(l, assets, k, c, enable, ok, r)
    ensures l.bits[k.m].settlement.None? && SwanDeclared(l, k.m) && SwanEnds(l, k.m, enable, ok, r) ==>
      Ends(l, assets, k, c, enable, ok, r)
    ensures l.bits[k.m].settlement.None? && !SwanDeclared(l, k.m) && (l.bits[k.m].prediction || !Callable(l, k, c)) ==>
      (ok && r == l ==> Ends(l, assets, k, c, enable, ok, r))
  {
    hide SwanDeclared, SwanEnds, Callable;
  }

  lemma EndsShort(l: Ledger, assets: Assets, k: Book, c: At, enable: bool, ok: bool, r: Ledger)
    requires k.m in l.bits && l.bits[k.m].settlement.None? && !SwanDeclared(l, k.m) && !l.bits[k.m].prediction
    requires Callable(l, k, c) && Short(l, k, c)
    requires ok <==> enable && Closable(l, k.m, l.bits[k.m].feed.value)
    requires ok ==> GloballySettled(l, k.m, l.bits[k.m].feed.value, r)
    ensures Ends(l, assets, k, c, enable, ok, r)
  {
    hide SwanDeclared, SwanEnds, Short, Closable, GloballySettled;
  }

  lemma EndsThrown(l: Ledger, assets: Assets, k: Book, c: At, enable: bool, r: Ledger)
    requires k.m in l.bits && l.bits[k.m].settlement.None? && !SwanDeclared(l, k.m) && !l.bits[k.m].prediction
    requires Callable(l, k, c) && !Short(l, k, c) && MarginCall(l, assets, k.queue[c.j], k.bids[c.i]).None?
    ensures Ends(l, assets, k, c, enable, false, r)
  {
    hide SwanDeclared, SwanEnds, Short, MarginCall;
  }

  lemma Reflexive(l: Ledger)
    ensures Conserves(l, l) && PricesStay(l, l)
  {}

  /** A margin call leaves the market-issued assets alone. */
  lemma PassFrame(b: Ledger, assets: Assets, call: OrderId, bid: OrderId)
    requires Invariant(b) && SaneAssets(assets) && call in b.calls && bid in b.limits
    requires MarginCall(b, assets, call, bid).Some?
    ensures MarginCall(b, assets, call, bid).value.0.bits == b.bits
  {
    hide MarginCall, Invariant;
    MarginCallKeeps(b, assets, call, bid);
  }

  lemma SamePrices(l: Ledger, r: Ledger)
    requires r.bits == l.bits
    ensures PricesStay(l, r)
  {}

  lemma NotCalled(l: Ledger, k: Book)
    requires k.m in l.bits
    requires l.bits[k.m].settlement.Some? || SwanDeclared(l, k.m) || l.bits[k.m].prediction || l.bits[k.m].feed.None?
      || k.bids == []
    ensures !Calls(l, k) && (k.bids == [] || l.bits[k.m].feed.None? ==> !Callable(l, k, At(0, 0)))
  {
    hide SwanDeclared;
  }

  lemma ConservesAcross(l0: Ledger, l1: Ledger, l2: Ledger)
    requires Conserves(l0, l1) && PricesStay(l0, l1)
    ensures Conserves(l1, l2) ==> Conserves(l0, l2)
    ensures PricesStay(l1, l2) ==> PricesStay(l0, l2)
  {
    hide Gap;
    if Conserves(l1, l2) {
      forall a ensures Gap(l2, a) == Gap(l0, a) {
        assert Gap(l1, a) == Gap(l0, a);
      }
    }
  }

  lemma PairOfPass(assets: Assets, k: Book, b: Ledger, c: At, filled: bool, b': Ledger, d: At)
    requires PassMade(assets, k, b, c, filled, b', d)
    ensures PairThere(b, k, c) && k.m in b.bits && b.bits[k.m].settlement.None? && !SwanDeclared(b, k.m)
    ensures Callable(b, k, c)
  {
    hide SwanDeclared, Short, Apply;
  }

  // ---- extending a run ----

  lemma FollowsStart(l: Ledger, assets: Assets, k: Book)
    ensures Follows(l, assets, k, [l], [At(0, 0)])
  {}

  lemma BidFilledNext(k: Book, ls: seq<Ledger>, cs: seq<At>, n: nat, l: Ledger, c: At)
    requires n < |ls| == |cs|
    ensures BidFilled(k, ls + [l], cs + [c], n) == BidFilled(k, ls, cs, n)
  {
    if BidFilled(k, ls, cs, n) {
      var e :| 0 <= e <= n && PairThere(ls[e], k, cs[e]) && FillsBid(ls[e], k, cs[e]);
      assert (ls + [l])[e] == ls[e] && (cs + [c])[e] == cs[e];
    }
  }

  /** Whether a bid has been filled after one more pass. */
  lemma BidFilledStep(k: Book, ls: seq<Ledger>, cs: seq<At>)
    requires |ls| == |cs| > 0 && PairThere(ls[|ls| - 1], k, cs[|cs| - 1])
    ensures var n := |ls| - 1;
      BidFilled(k, ls, cs, n) <==> (n > 0 && BidFilled(k, ls, cs, n - 1)) || FillsBid(ls[n], k, cs[n])
  {}

  lemma FollowsNext(l: Ledger, assets: Assets, k: Book, ls: seq<Ledger>, cs: seq<At>, b: Ledger, d: At)
    requires Follows(l, assets, k, ls, cs)
    requires PassMade(assets, k, ls[|ls| - 1], cs[|cs| - 1], BidFilled(k, ls, cs, |cs| - 1), b, d)
    ensures Follows(l, assets, k, ls + [b], cs + [d])
  {
    hide PassMade, BidFilled;
    var ls', cs' := ls + [b], cs + [d];
    forall n | 0 <= n < |cs'| - 1
      ensures PassMade(assets, k, ls'[n], cs'[n], BidFilled(k, ls', cs', n), ls'[n + 1], cs'[n + 1])
    {
      BidFilledNext(k, ls, cs, n, b, d);
    }
  }

  /** The margin calls of a run, as steps of the market. */
  function StepsOf(k: Book, cs: seq<At>): (r: seq<Step>)
    requires forall n :: 0 <= n < |cs| ==> cs[n].i < |k.bids| && cs[n].j < |k.queue|
    ensures |r| == |cs|
  {
    seq(|cs|, n requires 0 <= n < |cs| => CallMargin(k.queue[cs[n].j], k.bids[cs[n].i]))
  }

  lemma {:induction false} RunSnoc(l: Ledger, assets: Assets, steps: seq<Step>, s: Step)
    ensures var b := Run(l, assets, steps);
      Run(l, assets, steps + [s]) == if Apply(b, assets, s).Some? then Apply(b, assets, s).value else b
    decreases |steps|
  {
    hide Apply;
    if steps == [] {
      assert [] + [s] == [s] && [s][1..] == [];
    } else {
      var next := Apply(l, assets, steps[0]);
      assert (steps + [s])[0] == steps[0] && (steps + [s])[1..] == steps[1..] + [s];
      RunSnoc(if next.Some? then next.value else l, assets, steps[1..], s);
    }
  }

  /** The ledger in which a run stops is that of a run of market steps, so the laws of such runs hold of it. */
  lemma {:induction false} FollowsIsRun(l: Ledger, assets: Assets, k: Book, ls: seq<Ledger>, cs: seq<At>)
    requires Follows(l, assets, k, ls, cs)
    ensures forall n :: 0 <= n < |cs| - 1 ==> cs[n].i < |k.bids| && cs[n].j < |k.queue|
    ensures Run(l, assets, StepsOf(k, cs[..|cs| - 1])) == ls[|ls| - 1]
    decreases |cs|
  {
    hide Apply, SwanDeclared, Short, BidFilled;
    var n := |cs| - 1;
    if n > 0 {
      var ls0, cs0 := ls[..n], cs[..n];
      FollowsPrefix(l, assets, k, ls, cs);
      FollowsIsRun(l, assets, k, ls0, cs0);
      assert PassMade(assets, k, ls[n - 1], cs[n - 1], BidFilled(k, ls, cs, n - 1), ls[n], cs[n]);
      var s := CallMargin(k.queue[cs[n - 1].j], k.bids[cs[n - 1].i]);
      assert cs[..n][..n - 1] == cs[..n - 1];
      assert StepsOf(k, cs[..n]) == StepsOf(k, cs[..n - 1]) + [s];
      RunSnoc(l, assets, StepsOf(k, cs[..n - 1]), s);
    }
  }

  lemma FollowsPrefix(l: Ledger, assets: Assets, k: Book, ls: seq<Ledger>, cs: seq<At>)
    requires Follows(l, assets, k, ls, cs) && |cs| > 1
    ensures Follows(l, assets, k, ls[..|ls| - 1], cs[..|cs| - 1])
  {
    hide PassMade, BidFilled;
    var m := |cs| - 1;
    var ls0, cs0 := ls[..m], cs[..m];
    forall n | 0 <= n < |cs0| - 1
      ensures PassMade(assets, k, ls0[n], cs0[n], BidFilled(k, ls0, cs0, n), ls0[n + 1], cs0[n + 1])
    {
      assert PassMade(assets, k, ls[n], cs[n], BidFilled(k, ls, cs, n), ls[n + 1], cs[n + 1]);
      BidFilledNext(k, ls0, cs0, n, ls[m], cs[m]);
      assert ls0 + [ls[m]] == ls && cs0 + [cs[m]] == cs;
    }
  }
}
