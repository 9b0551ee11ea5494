/** Nonlinear facts about products, quotients and remainders. */
module Arith {

  lemma MulMono(a: int, b: int, c: int)
    requires a <= b && 0 <= c
    ensures a * c <= b * c
  {}

  /** Quotient and remainder are determined by n = q * d + r with 0 <= r < d. */
  lemma DivModUnique(n: int, d: int, q: int, r: int)
    requires d > 0 && n == q * d + r && 0 <= r < d
    ensures n / d == q && n % d == r
  {
    var q', r' := n / d, n % d;
    assert n == d * q' + r';
    assert (q - q') * d == r' - r;
    if q - q' >= 1 { MulMono(1, q - q', d); }
    if q - q' <= -1 { MulMono(q - q', -1, d); }
  }
}
