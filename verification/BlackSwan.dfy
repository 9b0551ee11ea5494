/** When check_for_blackswan declares a black swan. */
module BlackSwan {
  import opened Wrappers
  import opened MapSum
  import opened Ledger
  import opened MarketSpec
  import opened MarketRun
  import Arith

  /** p > q for two prices of the same pair. */
  predicate Exceeds(p: Price, q: Price) {
    p.base.n * q.quote.n > q.base.n * p.quote.n
  }

  predicate AtLeast(p: Price, q: Price) {
    !Exceeds(q, p)
  }

  function Inverse(p: Price): Price {
    Price(p.quote, p.base)
  }

  /** What the call order owes for its collateral: the inverse of collateralization(). */
  function Owes(o: CallOrder): Price {
    Price(o.Debt(), o.Collateral())
  }

  lemma Swapped(a: int, b: int, c: int)
    ensures a * b * c == a * c * b
  {}

  lemma CancelFactor(x: int, y: int, d: int)
    requires d > 0
    ensures x * d >= y * d ==> x >= y
    ensures x * d > y * d ==> x > y
  {
    if x < y { Arith.MulMono(x + 1, y, d); }
    if x <= y { Arith.MulMono(x, y, d); }
  }

  lemma CrossTransitive(a: int, b: int, c: int, d: int, e: int, f: int)
    requires a * d >= c * b && c * f >= e * d && d > 0 && b >= 0 && f >= 0
    ensures a * f >= e * b
    ensures a * d > c * b && f > 0 ==> a * f > e * b
    ensures c * f > e * d && b > 0 ==> a * f > e * b
  {
    Swapped(a, d, f);
    Swapped(e, d, b);
    Swapped(c, b, f);
    CrossSteps(a * d, c * b, c * f, e * d, a * f, e * b, b, d, f);
  }

  lemma CrossSteps(u: int, v: int, w: int, z: int, x: int, y: int, b: int, d: int, f: int)
    requires u >= v && w >= z && d > 0 && b >= 0 && f >= 0
    requires u * f == x * d && z * b == y * d && v * f == w * b
    ensures x >= y && (u > v && f > 0 ==> x > y) && (w > z && b > 0 ==> x > y)
  {
    Arith.MulMono(v, u, f);
    Arith.MulMono(z, w, b);
    CancelFactor(x, y, d);
    if u > v && f > 0 { Arith.MulMono(v + 1, u, f); }
    if w > z && b > 0 { Arith.MulMono(z + 1, w, b); }
  }

  /** Prices of one pair are ordered as ratios: the middle one must have a quote. */
  lemma PriceTransitive(p: Price, q: Price, r: Price)
    requires AtLeast(p, q) && AtLeast(q, r) && q.quote.n > 0 && p.quote.n >= 0 && r.quote.n >= 0
    ensures AtLeast(p, r)
    ensures Exceeds(p, q) && r.quote.n > 0 ==> Exceeds(p, r)
    ensures Exceeds(q, r) && p.quote.n > 0 ==> Exceeds(p, r)
  {
    CrossTransitive(p.base.n, p.quote.n, q.base.n, q.quote.n, r.base.n, r.quote.n);
  }

  // ---- the two price indexes ----

  predicate IsCall(l: Ledger, m: AssetId, c: OrderId) {
    c in l.calls && l.calls[c].Debt().asset == m
  }

  predicate IsBid(l: Ledger, m: AssetId, b: OrderId) {
    m in l.bits && b in l.limits && l.limits[b].sellPrice.base.asset == m
    && l.limits[b].sellPrice.quote.asset == l.bits[m].backing
  }

  /** The order of the call index: by call price, then by id. */
  predicate Before(p: Price, c: OrderId, q: Price, d: OrderId) {
    Exceeds(q, p) || (!Exceeds(p, q) && c <= d)
  }

  ghost predicate IsFirstCall(l: Ledger, m: AssetId, c: OrderId) {
    IsCall(l, m, c)
    && forall d <- l.calls :: IsCall(l, m, d) ==> Before(l.calls[c].callPrice, c, l.calls[d].callPrice, d)
  }

  ghost predicate IsBestBid(l: Ledger, m: AssetId, b: OrderId) {
    IsBid(l, m, b) && forall d <- l.limits :: IsBid(l, m, d) ==> AtLeast(l.limits[b].sellPrice, l.limits[d].sellPrice)
  }

  lemma BeforeTransitive(p: Price, c: OrderId, q: Price, d: OrderId, r: Price, e: OrderId)
    requires Before(p, c, q, d) && Before(q, d, r, e) && p.quote.n > 0 && q.quote.n > 0 && r.quote.n > 0
    ensures Before(p, c, r, e)
  {
    PriceTransitive(r, q, p);
  }

  // ---- the declaration ----

  /** No bid and not the feed pays as much collateral for the debt as would leave any: the order cannot be covered. */
  ghost predicate Underwater(l: Ledger, m: AssetId, c: OrderId)
    requires c in l.calls
  {
    && m in l.bits && l.bits[m].feed.Some? && AtLeast(Owes(l.calls[c]), l.bits[m].feed.value)
    && forall b <- l.limits :: IsBid(l, m, b) ==> AtLeast(Owes(l.calls[c]), l.limits[b].sellPrice)
  }

  /** The order with the least call price is under water. */
  ghost predicate SwanDeclared(l: Ledger, m: AssetId) {
    exists c :: IsFirstCall(l, m, c) && Underwater(l, m, c)
  }

  lemma OneFirstCall(l: Ledger, m: AssetId, c: OrderId, d: OrderId)
    requires IsFirstCall(l, m, c) && IsFirstCall(l, m, d)
    ensures c == d
  {}

  /** The greater of the feed and the best bid decides. */
  lemma HighestDecides(l: Ledger, m: AssetId, c: OrderId, highest: Price)
    requires Sane(l) && IsCall(l, m, c) && m in l.bits && l.bits[m].feed.Some? && highest.quote.n > 0
    requires AtLeast(highest, l.bits[m].feed.value)
    requires forall b <- l.limits :: IsBid(l, m, b) ==> AtLeast(highest, l.limits[b].sellPrice)
    requires highest == l.bits[m].feed.value || exists b :: IsBestBid(l, m, b) && highest == l.limits[b].sellPrice
    ensures AtLeast(Owes(l.calls[c]), highest) <==> Underwater(l, m, c)
  {
    hide Sane, AtLeast;
    SaneCallOrder(l, c);
    var p := Owes(l.calls[c]);
    if AtLeast(p, highest) {
      SaneBitOf(l, m);
      PriceTransitive(p, highest, l.bits[m].feed.value);
      forall b <- l.limits | IsBid(l, m, b) ensures AtLeast(p, l.limits[b].sellPrice) {
        SaneOrders(l, b, b);
        PriceTransitive(p, highest, l.limits[b].sellPrice);
      }
    }
  }

  /** Every other call order of m is collateralized at least as well as c. */
  ghost predicate IsPoorest(l: Ledger, m: AssetId, c: OrderId) {
    IsCall(l, m, c) && forall d <- l.calls :: IsCall(l, m, d) ==> AtLeast(Owes(l.calls[c]), Owes(l.calls[d]))
  }

  ghost predicate SomeUnderwater(l: Ledger, m: AssetId) {
    exists d :: IsCall(l, m, d) && Underwater(l, m, d)
  }

  /**
   * The scan takes the order with the least call price for the poorest one, but the call price was fixed under the
   * maintenance ratio of its time. An order under water is missed exactly when the poorest is and the first is not.
   */
  lemma SwanMissedIff(l: Ledger, m: AssetId, first: OrderId, poorest: OrderId)
    requires Sane(l) && IsFirstCall(l, m, first) && IsPoorest(l, m, poorest)
    ensures SwanDeclared(l, m) ==> SomeUnderwater(l, m)
    ensures SomeUnderwater(l, m) && !SwanDeclared(l, m) <==> Underwater(l, m, poorest) && !Underwater(l, m, first)
  {
    hide Sane, AtLeast, IsFirstCall, Underwater;
    FirstDecides(l, m, first);
    FirstIsCall(l, m, first);
    if SomeUnderwater(l, m) {
      var d :| IsCall(l, m, d) && Underwater(l, m, d);
      PoorerIsUnderwater(l, m, poorest, d);
    }
  }

  /** price::call_price for a maintenance ratio in thousandths, without its rounding of large fractions. */
  predicate IsCallPrice(o: CallOrder, ratio: nat) {
    o.callPrice.base.n * o.debt * ratio == o.callPrice.quote.n * o.collateral * RATIO_DENOM
  }

  const RATIO_DENOM := 1000

  lemma Fourfold(a: int, b: int, c: int, d: int)
    ensures (a * b) * (c * d) == (a * c) * (b * d)
  {
    assert (a * b) * (c * d) == a * (b * (c * d)) == a * (c * (b * d)) == (a * c) * (b * d);
  }

  lemma Recombined(x: int, v: int, e: int, f: int, y: int, c: int)
    requires x * e == y * c
    ensures (x * v) * (e * f) == (c * f) * (y * v)
  {
    Fourfold(x, v, e, f);
    Fourfold(y, c, v, f);
    var n := x * e;
    assert (x * e) * (v * f) == n * (v * f) == (y * c) * (v * f);
  }

  /** With x / y <= u / v, and both multiples by one factor of c / e and d / f: c / e <= d / f. */
  lemma SameFactor(x: int, y: int, u: int, v: int, c: int, e: int, d: int, f: int)
    requires y > 0 && v > 0 && e > 0 && f > 0 && x * v <= u * y && x * e == y * c && u * f == v * d
    ensures c * f <= d * e
  {
    Recombined(x, v, e, f, y, c);
    Recombined(u, y, f, e, v, d);
    Arith.MulMono(1, e, f);
    Arith.MulMono(1, y, v);
    Scaled(x * v, u * y, e * f, c * f, d * e, y * v);
  }

  lemma Scaled(p: int, q: int, n: int, r: int, t: int, k: int)
    requires p <= q && n > 0 && k > 0 && p * n == r * k && q * n == t * k
    ensures r <= t
  {
    Arith.MulMono(p, q, n);
    CancelFactor(t, r, k);
  }

  /** Under one maintenance ratio the order of call prices is the order of collateralization. */
  lemma LowerIsPoorer(o: CallOrder, q: CallOrder, ratio: nat)
    requires ratio > 0 && IsCallPrice(o, ratio) && IsCallPrice(q, ratio) && AtLeast(q.callPrice, o.callPrice)
    requires o.debt > 0 && q.debt > 0 && o.callPrice.quote.n > 0 && q.callPrice.quote.n > 0
    ensures AtLeast(Owes(o), Owes(q))
  {
    var e, f := o.debt * ratio, q.debt * ratio;
    var c, d := o.collateral * RATIO_DENOM, q.collateral * RATIO_DENOM;
    assert o.callPrice.base.n * o.debt * ratio == o.callPrice.base.n * e;
    assert o.callPrice.quote.n * o.collateral * RATIO_DENOM == o.callPrice.quote.n * c;
    assert q.callPrice.base.n * q.debt * ratio == q.callPrice.base.n * f;
    assert q.callPrice.quote.n * q.collateral * RATIO_DENOM == q.callPrice.quote.n * d;
    Arith.MulMono(1, o.debt, ratio);
    Arith.MulMono(1, q.debt, ratio);
    SameFactor(o.callPrice.base.n, o.callPrice.quote.n, q.callPrice.base.n, q.callPrice.quote.n, c, e, d, f);
    Fourfold(o.collateral, RATIO_DENOM, q.debt, ratio);
    Fourfold(q.collateral, RATIO_DENOM, o.debt, ratio);
    CancelFactor(q.collateral * o.debt, o.collateral * q.debt, RATIO_DENOM * ratio);
  }

  /** No swan is missed when the order with the least call price is the poorest, */
  lemma PoorestFirst(l: Ledger, m: AssetId, first: OrderId)
    requires Sane(l) && IsFirstCall(l, m, first) && IsPoorest(l, m, first)
    ensures SwanDeclared(l, m) <==> SomeUnderwater(l, m)
  {
    SwanMissedIff(l, m, first, first);
  }

  lemma OneRatioPoorest(l: Ledger, m: AssetId, first: OrderId, ratio: nat)
    requires Sane(l) && IsFirstCall(l, m, first) && ratio > 0
    requires forall c <- l.calls :: IsCall(l, m, c) ==> IsCallPrice(l.calls[c], ratio)
    ensures IsPoorest(l, m, first)
  {
    hide Sane, AtLeast, IsCallPrice;
    forall d <- l.calls | IsCall(l, m, d) ensures AtLeast(Owes(l.calls[first]), Owes(l.calls[d])) {
      SaneCallOrder(l, first);
      SaneCallOrder(l, d);
      LeastPrice(l, m, first, d);
      LowerIsPoorer(l.calls[first], l.calls[d], ratio);
    }
  }

  /** and so when all call prices of the asset stem from one maintenance ratio. */
  lemma OneRatioMissesNone(l: Ledger, m: AssetId, ratio: nat)
    requires Sane(l) && ratio > 0 && forall c <- l.calls :: IsCall(l, m, c) ==> IsCallPrice(l.calls[c], ratio)
    ensures SwanDeclared(l, m) <==> SomeUnderwater(l, m)
  {
    hide Sane, IsCallPrice, Underwater, Before;
    if d :| IsCall(l, m, d) {
      var first := SomeFirst(l, m, l.calls.Keys, d);
      OneRatioPoorest(l, m, first, ratio);
      PoorestFirst(l, m, first);
    }
  }

  lemma LeastPrice(l: Ledger, m: AssetId, first: OrderId, d: OrderId)
    requires IsFirstCall(l, m, first) && IsCall(l, m, d)
    ensures AtLeast(l.calls[d].callPrice, l.calls[first].callPrice)
  {}

  /** An asset with call orders has a first one. */
  lemma {:induction false} SomeFirst(l: Ledger, m: AssetId, ids: set<OrderId>, d: OrderId) returns (first: OrderId)
    requires Sane(l) && d in ids && ids <= l.calls.Keys && IsCall(l, m, d)
    ensures first in ids && IsCall(l, m, first)
    ensures forall c <- ids :: IsCall(l, m, c) ==> Before(l.calls[first].callPrice, first, l.calls[c].callPrice, c)
    decreases |ids|
  {
    hide Sane, Before;
    SaneCallPrices(l);
    if e :| e in ids && e != d && IsCall(l, m, e) {
      var rest := ids - {e};
      var f := SomeFirst(l, m, rest, d);
      NotBefore(l.calls[e].callPrice, e, l.calls[f].callPrice, f);
      NotBefore(l.calls[e].callPrice, e, l.calls[e].callPrice, e);
      if Before(l.calls[f].callPrice, f, l.calls[e].callPrice, e) {
        first := f;
      } else {
        first := e;
        forall c <- rest | IsCall(l, m, c) ensures Before(l.calls[e].callPrice, e, l.calls[c].callPrice, c) {
          BeforeTransitive(l.calls[e].callPrice, e, l.calls[f].callPrice, f, l.calls[c].callPrice, c);
        }
      }
    } else {
      first := d;
      NotBefore(l.calls[d].callPrice, d, l.calls[d].callPrice, d);
    }
  }

  lemma FirstIsCall(l: Ledger, m: AssetId, c: OrderId)
    requires IsFirstCall(l, m, c)
    ensures IsCall(l, m, c)
  {}

  lemma PoorerIsUnderwater(l: Ledger, m: AssetId, c: OrderId, d: OrderId)
    requires Sane(l) && IsCall(l, m, c) && IsCall(l, m, d) && AtLeast(Owes(l.calls[c]), Owes(l.calls[d]))
    requires Underwater(l, m, d)
    ensures Underwater(l, m, c)
  {
    hide Sane, AtLeast;
    SaneCallOrder(l, c);
    SaneCallOrder(l, d);
    SaneBitOf(l, m);
    OwesTransitive(l.calls[c], l.calls[d], l.bits[m].feed.value);
    forall b <- l.limits | IsBid(l, m, b) ensures AtLeast(Owes(l.calls[c]), l.limits[b].sellPrice) {
      SaneOrders(l, b, b);
      OwesTransitive(l.calls[c], l.calls[d], l.limits[b].sellPrice);
    }
  }

  /** An order without collateral owes more than any price. */
  lemma OwesTransitive(c: CallOrder, d: CallOrder, p: Price)
    requires c.debt > 0 && d.debt > 0 && c.collateral >= 0 && d.collateral >= 0 && p.base.n > 0 && p.quote.n > 0
    requires AtLeast(Owes(c), Owes(d)) && AtLeast(Owes(d), p)
    ensures AtLeast(Owes(c), p)
  {
    if d.collateral > 0 {
      PriceTransitive(Owes(c), Owes(d), p);
    } else {
      NoCollateral(c, d);
    }
  }

  lemma NoCollateral(c: CallOrder, d: CallOrder)
    requires d.debt > 0 && d.collateral == 0 && c.collateral >= 0 && AtLeast(Owes(c), Owes(d))
    ensures c.collateral == 0
  {
    if c.collateral > 0 {
      Arith.MulMono(1, c.collateral, d.debt);
    }
  }

  /**
   * Two orders of debt 10 at a feed of 1 : 2. The first has collateral 30 and was opened under a maintenance ratio of
   * 1750, the second has collateral 19, is under water, and was opened under the least ratio allowed.
   */
  function Missed(): Ledger {
    Ledger(map[Holder(7, 1) := 20], map[], map[1 := CallOrder(5, 30, 10, Price(Amount(12, 0), Amount(7, 1))),
                                               2 := CallOrder(6, 19, 10, Price(Amount(1900, 0), Amount(1001, 1)))],
           map[], map[1 := 20], map[], map[],
           map[1 := Bitasset(0, false, true, Some(Price(Amount(1, 1), Amount(2, 0))), 0, 0, 0, None, 0)])
  }

  lemma MissedInvariant()
    ensures Invariant(Missed())
  {
    hide Sum;
    var l := Missed();
    SumRemove(l.balances, BalanceIn(1), Holder(7, 1));
    SumZero(l.balances - {Holder(7, 1)}, BalanceIn(1));
    SumZero(l.limits, LimitIn(1));
    SumZero(l.calls, CollateralIn(1));
    SumZero(l.settles, SettleIn(1));
    SumZero(l.bits, FundIn(1));
    SumZero(l.pending, PendingIn(1));
    SumRemove(l.calls, DebtIn(1), 1);
    SumRemove(l.calls - {1}, DebtIn(1), 2);
    SumZero(l.calls - {1} - {2}, DebtIn(1));
    assert Covered(l, 1);
  }

  /** The input: an order is under water, and no swan is declared. Both call prices are as the source computes them. */
  lemma MissedSwanExists()
    ensures Invariant(Missed()) && SomeUnderwater(Missed(), 1) && !SwanDeclared(Missed(), 1)
    ensures IsCallPrice(Missed().calls[1], 1750) && IsCallPrice(Missed().calls[2], 1001)
  {
    hide Invariant;
    MissedInvariant();
    var l := Missed();
    assert IsCall(l, 1, 2) && Underwater(l, 1, 2);
    assert IsFirstCall(l, 1, 1);
    forall c | IsFirstCall(l, 1, c) ensures c == 1 { OneFirstCall(l, 1, c, 1); }
    assert !Underwater(l, 1, 1);
  }

  // ---- steps of the scans ----

  lemma SaneCallPrices(l: Ledger)
    requires Sane(l)
    ensures forall c <- l.calls :: l.calls[c].callPrice.base.n > 0 && l.calls[c].callPrice.quote.n > 0
  {}

  lemma NotBefore(p: Price, c: OrderId, q: Price, d: OrderId)
    ensures Before(p, c, q, d) || Before(q, d, p, c)
    ensures Before(p, c, p, c)
  {}

  /** An order that comes before the first of those seen is the first. */
  lemma NowFirst(l: Ledger, m: AssetId, was: Option<OrderId>, id: OrderId, rest: set<OrderId>)
    requires Sane(l) && IsCall(l, m, id)
    requires was.None? ==> forall c <- l.calls :: c in rest + {id} || !IsCall(l, m, c)
    requires was.Some? ==> was.value in l.calls
    requires was.Some? ==> !Before(l.calls[was.value].callPrice, was.value, l.calls[id].callPrice, id)
    requires was.Some? ==> forall c <- l.calls ::
      c in rest + {id} || !IsCall(l, m, c) || Before(l.calls[was.value].callPrice, was.value, l.calls[c].callPrice, c)
    ensures forall c <- l.calls ::
      c in rest || !IsCall(l, m, c) || Before(l.calls[id].callPrice, id, l.calls[c].callPrice, c)
  {
    hide Sane, Before;
    SaneCallPrices(l);
    forall c <- l.calls | c !in rest && IsCall(l, m, c)
      ensures Before(l.calls[id].callPrice, id, l.calls[c].callPrice, c)
    {
      NotBefore(l.calls[id].callPrice, id, l.calls[c].callPrice, c);
      if c != id {
        NotBefore(l.calls[was.value].callPrice, was.value, l.calls[id].callPrice, id);
        BeforeTransitive(l.calls[id].callPrice, id, l.calls[was.value].callPrice, was.value, l.calls[c].callPrice, c);
      }
    }
  }

  lemma NowBest(l: Ledger, m: AssetId, was: Option<OrderId>, id: OrderId, rest: set<OrderId>)
    requires Sane(l) && IsBid(l, m, id)
    requires was.None? ==> forall b <- l.limits :: b in rest + {id} || !IsBid(l, m, b)
    requires was.Some? ==> was.value in l.limits && !AtLeast(l.limits[was.value].sellPrice, l.limits[id].sellPrice)
    requires was.Some? ==> forall b <- l.limits ::
      b in rest + {id} || !IsBid(l, m, b) || AtLeast(l.limits[was.value].sellPrice, l.limits[b].sellPrice)
    ensures forall b <- l.limits ::
      b in rest || !IsBid(l, m, b) || AtLeast(l.limits[id].sellPrice, l.limits[b].sellPrice)
  {
    hide Sane;
    forall b <- l.limits | b !in rest && IsBid(l, m, b) ensures AtLeast(l.limits[id].sellPrice, l.limits[b].sellPrice) {
      if b != id {
        SaneOrders(l, b, was.value);
        SaneOrders(l, id, id);
        PriceTransitive(l.limits[id].sellPrice, l.limits[was.value].sellPrice, l.limits[b].sellPrice);
      }
    }
  }

  /** An order poorer than the poorest of those seen is the poorest. */
  lemma NowPoorest(l: Ledger, m: AssetId, was: Option<OrderId>, id: OrderId, rest: set<OrderId>)
    requires Sane(l) && IsCall(l, m, id)
    requires was.None? ==> forall c <- l.calls :: c in rest + {id} || !IsCall(l, m, c)
    requires was.Some? ==> was.value in l.calls && !AtLeast(Owes(l.calls[was.value]), Owes(l.calls[id]))
    requires was.Some? ==> forall c <- l.calls ::
      c in rest + {id} || !IsCall(l, m, c) || AtLeast(Owes(l.calls[was.value]), Owes(l.calls[c]))
    ensures forall c <- l.calls :: c in rest || !IsCall(l, m, c) || AtLeast(Owes(l.calls[id]), Owes(l.calls[c]))
  {
    hide Sane;
    forall c <- l.calls | c !in rest && IsCall(l, m, c) ensures AtLeast(Owes(l.calls[id]), Owes(l.calls[c])) {
      if c != id {
        SaneCallOrder(l, id);
        SaneCallOrder(l, was.value);
        SaneCallOrder(l, c);
        PoorerTransitive(l.calls[id], l.calls[was.value], l.calls[c]);
      }
    }
  }

  lemma PoorerTransitive(o: CallOrder, p: CallOrder, q: CallOrder)
    requires o.debt > 0 && p.debt > 0 && q.debt > 0 && AtLeast(Owes(o), Owes(p)) && AtLeast(Owes(p), Owes(q))
    ensures AtLeast(Owes(o), Owes(q))
  {
    PriceTransitive(Inverse(Owes(q)), Inverse(Owes(p)), Inverse(Owes(o)));
  }

  lemma HighestOf(l: Ledger, m: AssetId, bid: Option<OrderId>, p: Price)
    requires Sane(l) && m in l.bits && l.bits[m].feed.Some?
    requires bid.None? ==> forall b <- l.limits :: !IsBid(l, m, b)
    requires bid.Some? ==> IsBestBid(l, m, bid.value)
    requires p
      == if bid.Some? && !Exceeds(l.bits[m].feed.value, l.limits[bid.value].sellPrice)
         then l.limits[bid.value].sellPrice
                  else l.bits[m].feed.value
    ensures p.quote.n > 0 && AtLeast(p, l.bits[m].feed.value)
    ensures forall b <- l.limits :: IsBid(l, m, b) ==> AtLeast(p, l.limits[b].sellPrice)
    ensures p == l.bits[m].feed.value || exists b :: IsBestBid(l, m, b) && p == l.limits[b].sellPrice
  {
    hide Sane;
    SaneBitOf(l, m);
    forall b <- l.limits | IsBid(l, m, b) ensures AtLeast(p, l.limits[b].sellPrice) {
      SaneOrders(l, b, bid.value);
      if p == l.bits[m].feed.value {
        PriceTransitive(p, l.limits[bid.value].sellPrice, l.limits[b].sellPrice);
      }
    }
    if bid.Some? {
      SaneOrders(l, bid.value, bid.value);
    }
  }

  lemma NoSwan(l: Ledger, m: AssetId)
    requires m in l.bits && (l.bits[m].feed.None? || forall c <- l.calls :: !IsCall(l, m, c))
    ensures !SwanDeclared(l, m)
  {}

  lemma FirstDecides(l: Ledger, m: AssetId, c: OrderId)
    requires IsFirstCall(l, m, c)
    ensures SwanDeclared(l, m) <==> Underwater(l, m, c)
  {
    hide Underwater;
    forall d | IsFirstCall(l, m, d) ensures d == c { OneFirstCall(l, m, c, d); }
  }

  lemma SaneOwes(l: Ledger, c: OrderId)
    requires Sane(l) && c in l.calls
    ensures SanePrice(Owes(l.calls[c]))
  {}
}
