/** Products divided with rounding down, as prices and shares are computed. */
module Floors {
  import Arith

  /** r is p * num / den, short by less than one unit. */
  predicate WithinOneUnit(r: int, p: int, num: int, den: int) {
    r * den <= p * num < (r + 1) * den
  }

  lemma FloorOf(p: int, num: int, den: int)
    requires den > 0
    ensures WithinOneUnit(p * num / den, p, num, den)
  {
    var x := p * num;
    assert x == x / den * den + x % den;
    assert (x / den + 1) * den == x / den * den + den;
  }

  lemma LessByFactor(u: int, v: int, den: int)
    requires den > 0 && u * den < (v + 1) * den
    ensures u <= v
  {
    if u > v {
      Arith.MulMono(v + 1, u, den);
    }
  }

  lemma FloorMono(x: int, y: int, num: int, den: int)
    requires den > 0 && num >= 0 && x <= y
    ensures x * num / den <= y * num / den
  {
    FloorOf(x, num, den);
    FloorOf(y, num, den);
    Arith.MulMono(x, y, num);
    LessByFactor(x * num / den, y * num / den, den);
  }

  lemma FloorNonNegative(x: int, num: int, den: int)
    requires den > 0 && num >= 0 && x >= 0
    ensures x * num / den >= 0
  {
    FloorMono(0, x, num, den);
  }

  lemma FloorBelow(x: int, y: int, num: int, den: int)
    requires den > 0 && num > 0 && x <= y * den / num
    ensures x * num / den <= y
  {
    FloorOf(y, den, num);
    FloorOf(x, num, den);
    Arith.MulMono(x, y * den / num, num);
    assert (y + 1) * den == y * den + den;
    LessByFactor(x * num / den, y, den);
  }
}
