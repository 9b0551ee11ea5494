/** The field GF(32) = GF(2)[a]/(a^5 + a^3 + 1), polynomials over it (coefficients
    listed from the highest power down), and division by the cashaddr generator. */
module Gf32 {

  /** A 5-bit symbol, read as an element of GF(32). */
  datatype Symbol = Symbol(bits: bv5)

  const ZERO := Symbol(0)
  const ONE := Symbol(1)

  function Plus(a: Symbol, b: Symbol): Symbol {
    Symbol(a.bits ^ b.bits)
  }

  /** Multiplication by a. */
  function Twice(x: Symbol): Symbol {
    Symbol(if x.bits & 0x10 != 0 then (x.bits << 1) ^ 0x09 else x.bits << 1)
  }

  /** x when bit n of a is set, else 0. */
  function Pick(a: Symbol, n: bv5, x: Symbol): Symbol {
    if a.bits & n != 0 then x else ZERO
  }

  /** Product in GF(32): the sum of b * a^n over the set bits n of c. */
  function Times(c: Symbol, b: Symbol): Symbol {
    Plus(Pick(c, 1, b), Plus(Pick(c, 2, Twice(b)), Plus(Pick(c, 4, Twice(Twice(b))),
         Plus(Pick(c, 8, Twice(Twice(Twice(b)))), Pick(c, 16, Twice(Twice(Twice(Twice(b)))))))))
  }

  lemma TimesOne(x: Symbol)
    ensures Times(x, ONE) == x
  {}

  lemma PlusCancel(x: Symbol, y: Symbol)
    ensures Plus(Plus(x, y), y) == x && Plus(y, Plus(x, y)) == x && Plus(y, Plus(y, x)) == x
  {}

  lemma PlusZero(x: Symbol)
    ensures Plus(x, ZERO) == x == Plus(ZERO, x)
  {}

  lemma PlusAssoc(x: Symbol, y: Symbol, z: Symbol)
    ensures Plus(Plus(x, y), z) == Plus(x, Plus(y, z))
  {}

  type Poly = seq<Symbol>

  /** The cashaddr generator g(x). */
  const G: Poly := [Symbol(1), Symbol(19), Symbol(3), Symbol(25), Symbol(11),
                    Symbol(25), Symbol(3), Symbol(19), Symbol(1)]

  function Zeros(n: nat): (z: Poly)
    ensures |z| == n
  {
    seq(n, _ => ZERO)
  }

  function Add(p: Poly, q: Poly): (s: Poly)
    requires |p| == |q|
    ensures |s| == |p|
  {
    seq(|p|, i requires 0 <= i < |p| => Plus(p[i], q[i]))
  }

  function Scale(c: Symbol, p: Poly): (s: Poly)
    ensures |s| == |p|
  {
    seq(|p|, i requires 0 <= i < |p| => Times(c, p[i]))
  }

  /** q(x) * g(x), by Horner's rule on q. */
  function Product(q: Poly, g: Poly): (p: Poly)
    requires |g| > 0
    ensures |p| == |q| + |g| - 1
  {
    if q == [] then Zeros(|g| - 1)
    else
      var n := |q| - 1;
      Add(Product(q[..n], g) + [ZERO], Zeros(n) + Scale(q[n], g))
  }

  /** p(x) = q(x) * g(x) + r(x) with deg r < 8. */
  ghost predicate Divides(p: Poly, q: Poly, r: Poly) {
    |r| == 8 && |p| == |q| + 8 && p == Add(Product(q, G), Zeros(|q|) + r)
  }

  /** From s, the remainder of s(x) * x + d when the multiple k of g is taken off it. */
  function Subtract(s: Poly, k: Poly, d: Symbol): (r: Poly)
    requires |s| == 8 && |k| == 9
    ensures |r| == 8
  {
    Add(s[1..] + [d], k[1..])
  }

  /** One step of long division: from r = f mod g to (f * x + d) mod g. */
  function RemStep(r: Poly, d: Symbol): (s: Poly)
    requires |r| == 8
    ensures |s| == 8
  {
    Subtract(r, Scale(r[0], G), d)
  }

  function RemFrom(r: Poly, v: Poly): (s: Poly)
    requires |r| == 8
    ensures |s| == 8
  {
    if v == [] then r else RemStep(RemFrom(r, v[..|v|-1]), v[|v|-1])
  }

  /** The quotient digits are the leading coefficients met on the way. */
  function QuotFrom(r: Poly, v: Poly): (q: Poly)
    requires |r| == 8
    ensures |q| == |v|
  {
    if v == [] then [] else QuotFrom(r, v[..|v|-1]) + [RemFrom(r, v[..|v|-1])[0]]
  }

  /** The remainder that precedes r when the multiple k of g was subtracted last. */
  function Before(r: Poly, k: Poly): (s: Poly)
    requires |r| == 8 && |k| == 9
    ensures |s| == 8
  {
    Add(k[..8], [ZERO] + r[..7])
  }

  lemma BeforeSubtract(s: Poly, k: Poly, d: Symbol)
    requires |s| == 8 && |k| == 9 && s[0] == k[0]
    ensures Before(Subtract(s, k, d), k) == s
    ensures Plus(k[8], Subtract(s, k, d)[7]) == d
  {
    var r := Subtract(s, k, d);
    PlusCancel(d, k[8]);
    forall i | 0 <= i < 8 ensures Before(r, k)[i] == s[i] {
      if i == 0 { PlusZero(s[0]); } else { PlusCancel(s[i], k[i]); }
    }
  }

  lemma SubtractBefore(r: Poly, k: Poly)
    requires |r| == 8 && |k| == 9
    ensures Subtract(Before(r, k), k, Plus(k[8], r[7])) == r
    ensures Before(r, k)[0] == k[0]
  {
    var s := Before(r, k);
    PlusZero(k[0]);
    forall i | 0 <= i < 8 ensures Subtract(s, k, Plus(k[8], r[7]))[i] == r[i] {
      PlusCancel(r[i], k[i + 1]);
      PlusCommutes(r[i], k[i + 1]);
    }
  }

  lemma PlusCommutes(x: Symbol, y: Symbol)
    ensures Plus(x, y) == Plus(y, x)
  {}

  lemma SnocEq(p: Poly, c: Symbol, q: Poly, d: Symbol)
    requires |p| == |q|
    ensures p + [c] == q + [d] <==> p == q && c == d
  {
    if p + [c] == q + [d] {
      assert (p + [c])[|p|] == (q + [d])[|p|];
      assert (p + [c])[..|p|] == (q + [d])[..|p|];
    }
  }

  /** Dropping the last coefficient of a dividend drops the last quotient digit. */
  lemma PeelDigit(prod: Poly, k: Poly, r: Poly)
    requires |prod| >= 8 && |k| == 9 && |r| == 8
    ensures Add(Add(prod + [ZERO], Zeros(|prod| - 8) + k), Zeros(|prod| - 7) + r) ==
            Add(prod, Zeros(|prod| - 8) + Before(r, k)) + [Plus(k[8], r[7])]
  {
    var n := |prod|;
    var ks, rs := Zeros(n - 8) + k, Zeros(n - 7) + r;
    var a := Add(Add(prod + [ZERO], ks), rs);
    var b := Add(prod, Zeros(n - 8) + Before(r, k));
    forall i | 0 <= i < n ensures a[i] == b[i] {
      PlusAssoc(prod[i], ks[i], rs[i]);
      if i < n - 8 { PlusZero(ZERO); }
    }
    PlusAssoc(ZERO, k[8], r[7]);
    PlusZero(Plus(k[8], r[7]));
    assert a[n] == Plus(Plus(ZERO, k[8]), r[7]);
  }

  lemma ProductSnoc(q: Poly, c: Symbol)
    ensures Product(q + [c], G) == Add(Product(q, G) + [ZERO], Zeros(|q|) + Scale(c, G))
  {
    assert (q + [c])[..|q|] == q;
  }

  lemma GeneratorEnds(c: Symbol)
    ensures Scale(c, G)[0] == c
  {
    TimesOne(c);
  }

  lemma PeelDivides(p: Poly, d: Symbol, q: Poly, c: Symbol, r: Poly)
    requires |p| == |q| + 8 && |r| == 8
    ensures Divides(p + [d], q + [c], r) <==>
            Divides(p, q, Before(r, Scale(c, G))) && d == Plus(Scale(c, G)[8], r[7])
  {
    var k := Scale(c, G);
    ProductSnoc(q, c);
    PeelDigit(Product(q, G), k, r);
    SnocEq(p, d, Add(Product(q, G), Zeros(|q|) + Before(r, k)), Plus(k[8], r[7]));
  }

  lemma DigitStep(q: Poly, c: Symbol, qs: Poly, s: Poly, k: Poly, d: Symbol, r: Poly)
    requires |q| == |qs| && |s| == 8 && |k| == 9 && |r| == 8 && k[0] == c
    ensures q == qs && Before(r, k) == s && d == Plus(k[8], r[7]) <==>
            q + [c] == qs + [s[0]] && r == Subtract(s, k, d)
  {
    SnocEq(q, c, qs, s[0]);
    SubtractBefore(r, k);
    if s[0] == c { BeforeSubtract(s, k, d); }
  }

  /** Long division is correct and its answer is the only one: (q, r) divides r0 ++ v
      exactly when q is the digit list and r the final remainder of the loop. */
  lemma {:induction false} DivisionUnique(r0: Poly, v: Poly, q: Poly, r: Poly)
    requires |r0| == 8 && |r| == 8 && |q| == |v|
    ensures Divides(r0 + v, q, r) <==> q == QuotFrom(r0, v) && r == RemFrom(r0, v)
    decreases |v|
  {
    if v == [] {
      assert r0 + v == r0;
      DividesShort(r0, r);
    } else {
      var n := |v| - 1;
      var v', d, q', c := v[..n], v[n], q[..n], q[n];
      assert r0 + v == (r0 + v') + [d] && q == q' + [c];
      var k := Scale(c, G);
      GeneratorEnds(c);
      PeelDivides(r0 + v', d, q', c, r);
      DivisionUnique(r0, v', q', Before(r, k));
      DigitStep(q', c, QuotFrom(r0, v'), RemFrom(r0, v'), k, d, r);
      SnocEq(q', c, QuotFrom(r0, v'), RemFrom(r0, v')[0]);
    }
  }

  lemma DividesShort(p: Poly, r: Poly)
    requires |p| == 8 && |r| == 8
    ensures Divides(p, [], r) <==> r == p
  {
    forall i | 0 <= i < 8 ensures Add(Zeros(8), r)[i] == r[i] { PlusZero(r[i]); }
    assert Add(Product([], G), Zeros(0) + r) == r;
  }

  lemma {:induction false} RemFromAppend(r: Poly, u: Poly, v: Poly)
    requires |r| == 8
    ensures RemFrom(r, u + v) == RemFrom(RemFrom(r, u), v)
    decreases |v|
  {
    if v == [] {
      assert u + v == u;
    } else {
      var n := |v| - 1;
      assert (u + v)[..|u + v| - 1] == u + v[..n];
      RemFromAppend(r, u, v[..n]);
    }
  }

  /** A step is injective in the remainder: x is invertible modulo g. */
  lemma RemStepInjective(a: Poly, b: Poly, d: Symbol)
    requires |a| == |b| == 8
    requires RemStep(a, d) == RemStep(b, d)
    ensures a == b
  {
    var ka, kb := Scale(a[0], G), Scale(b[0], G);
    TimesOne(a[0]);
    TimesOne(b[0]);
    BeforeSubtract(a, ka, d);
    BeforeSubtract(b, kb, d);
    LastCoef(a, ka, d);
    LastCoef(b, kb, d);
    PlusCancel(a[0], d);
    PlusCancel(b[0], d);
    PlusCommutes(a[0], d);
    PlusCommutes(b[0], d);
  }

  lemma LastCoef(s: Poly, k: Poly, d: Symbol)
    requires |s| == 8 && |k| == 9
    ensures Subtract(s, k, d)[7] == Plus(d, k[8])
  {}

  lemma {:induction false} RemFromInjective(a: Poly, b: Poly, v: Poly)
    requires |a| == |b| == 8
    requires RemFrom(a, v) == RemFrom(b, v)
    ensures a == b
  {
    if v != [] {
      var n := |v| - 1;
      RemStepInjective(RemFrom(a, v[..n]), RemFrom(b, v[..n]), v[n]);
      RemFromInjective(a, b, v[..n]);
    }
  }

  function Pad(w: Poly): (p: Poly)
    requires |w| <= 8
    ensures |p| == 8
  {
    Zeros(8 - |w|) + w
  }

  /** At most eight symbols appended to anything show up unchanged on top of what zeros give. */
  lemma {:induction false} WindowAdds(r: Poly, w: Poly)
    requires |r| == 8 && |w| <= 8
    ensures RemFrom(r, w) == Add(RemFrom(r, Zeros(|w|)), Pad(w))
    decreases |w|
  {
    if w == [] {
      AddZeros(r);
      assert Pad(w) == Zeros(8);
    } else {
      var n := |w| - 1;
      PadSnoc(w);
      WindowAdds(r, w[..n]);
      StepAdds(RemFrom(r, Zeros(n)), Pad(w[..n]), w[n]);
    }
  }

  lemma AddZeros(r: Poly)
    ensures Add(r, Zeros(|r|)) == r
  {
    forall i | 0 <= i < |r| ensures Add(r, Zeros(|r|))[i] == r[i] { PlusZero(r[i]); }
  }

  lemma PadSnoc(w: Poly)
    requires 0 < |w| <= 8
    ensures Pad(w) == Pad(w[..|w|-1])[1..] + [w[|w|-1]]
    ensures Zeros(|w|)[..|w|-1] == Zeros(|w|-1)
  {}

  lemma StepAdds(z: Poly, p: Poly, d: Symbol)
    requires |z| == |p| == 8 && p[0] == ZERO
    ensures RemStep(Add(z, p), d) == Add(RemStep(z, ZERO), p[1..] + [d])
  {
    PlusZero(z[0]);
    SubtractAdds(z, p, Scale(z[0], G), d);
  }

  lemma SubtractAdds(z: Poly, p: Poly, k: Poly, d: Symbol)
    requires |z| == |p| == 8 && |k| == 9
    ensures Subtract(Add(z, p), k, d) == Add(Subtract(z, k, ZERO), p[1..] + [d])
  {
    var a, b := Subtract(Add(z, p), k, d), Add(Subtract(z, k, ZERO), p[1..] + [d]);
    forall i | 0 <= i < 8 ensures a[i] == b[i] {
      if i < 7 {
        PlusSwap(z[i + 1], p[i + 1], k[i + 1]);
      } else {
        PlusZero(k[8]);
        PlusCommutes(d, k[8]);
      }
    }
  }

  lemma PlusSwap(x: Symbol, y: Symbol, z: Symbol)
    ensures Plus(Plus(x, y), z) == Plus(Plus(x, z), y)
  {}

  lemma AddCancel(p: Poly, q: Poly)
    requires |p| == |q|
    ensures Add(p, Add(p, q)) == q
  {
    forall i | 0 <= i < |p| ensures Add(p, Add(p, q))[i] == q[i] { PlusCancel(q[i], p[i]); }
  }
}
