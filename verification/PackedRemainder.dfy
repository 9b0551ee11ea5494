/** The bit-packed checksum loop of cashaddr: eight 5-bit coefficients in one 64-bit word. */
module PackedRemainder {
  import opened Gf32

  /** The accumulator `c`: 40 bits in use of the source's 64. */
  datatype Word = Word(bits: bv64) {
    predicate Valid() { bits < 0x100_0000_0000 }
  }

  function Coef(c: bv64): Symbol {
    Symbol((c & 0x1f) as bv5)
  }

  /** The 5-bit groups of a 40-bit word, the high one first. */
  function Unpack(w: Word): (p: Poly)
    ensures |p| == 8
  {
    Groups(w.bits)
  }

  function Groups(c: bv64): (p: Poly)
    ensures |p| == 8
  {
    [Coef(c >> 35), Coef(c >> 30), Coef(c >> 25), Coef(c >> 20), Coef(c >> 15), Coef(c >> 10), Coef(c >> 5), Coef(c)]
  }

  function Xor(a: Word, b: Word): Word {
    Word(a.bits ^ b.bits)
  }

  function Shifted(c: bv64, d: bv5): bv64 {
    ((c & 0x07ffffffff) << 5) ^ (d as bv64)
  }

  function ShiftIn(w: Word, d: Symbol): Word {
    Word(Shifted(w.bits, d.bits))
  }

  /** The source's `if (c0 & bit) c ^= k`. */
  function Fold(w: Word, c0: bv64, bit: bv64, k: bv64): Word {
    if c0 & bit != 0 then Word(w.bits ^ k) else w
  }

  function Step(w: Word, d: Symbol): Word {
    var c0 := w.bits >> 35;
    Fold(Fold(Fold(Fold(Fold(ShiftIn(w, d), c0, 0x01, 0x98f2bc8e61), c0, 0x02, 0x79b76d99e2), c0, 0x04, 0xf33e5fb3c4),
              c0, 0x08, 0xae2eabe2a8), c0, 0x10, 0x1e4f43e470)
  }

  /** The accumulator after the symbols v, started from w. */
  function Feed(w: Word, v: Poly): Word {
    if v == [] then w else Step(Feed(w, v[..|v|-1]), v[|v|-1])
  }

  lemma StepBound(w: Word, d: Symbol)
    requires w.Valid()
    ensures Step(w, d).Valid()
  {}

  lemma ShiftCoefs(c: bv64, d: bv5)
    ensures var e := Shifted(c, d);
      && Coef(e >> 35) == Coef(c >> 30) && Coef(e >> 30) == Coef(c >> 25)
      && Coef(e >> 25) == Coef(c >> 20) && Coef(e >> 20) == Coef(c >> 15)
      && Coef(e >> 15) == Coef(c >> 10) && Coef(e >> 10) == Coef(c >> 5)
      && Coef(e >> 5) == Coef(c) && Coef(e) == Symbol(d)
  {}

  lemma XorCoef(x: bv64, y: bv64)
    ensures Coef(x ^ y) == Plus(Coef(x), Coef(y))
  {
    assert (x ^ y) & 0x1f == (x & 0x1f) ^ (y & 0x1f);
  }

  lemma Xor35(c: bv64, d: bv64) ensures Coef((c ^ d) >> 35) == Plus(Coef(c >> 35),
              Coef(d >> 35)) { XorCoef(c >> 35, d >> 35); }
  lemma Xor30(c: bv64, d: bv64) ensures Coef((c ^ d) >> 30) == Plus(Coef(c >> 30),
              Coef(d >> 30)) { XorCoef(c >> 30, d >> 30); }
  lemma Xor25(c: bv64, d: bv64) ensures Coef((c ^ d) >> 25) == Plus(Coef(c >> 25),
              Coef(d >> 25)) { XorCoef(c >> 25, d >> 25); }
  lemma Xor20(c: bv64, d: bv64) ensures Coef((c ^ d) >> 20) == Plus(Coef(c >> 20),
              Coef(d >> 20)) { XorCoef(c >> 20, d >> 20); }
  lemma Xor15(c: bv64, d: bv64) ensures Coef((c ^ d) >> 15) == Plus(Coef(c >> 15),
              Coef(d >> 15)) { XorCoef(c >> 15, d >> 15); }
  lemma Xor10(c: bv64, d: bv64) ensures Coef((c ^ d) >> 10) == Plus(Coef(c >> 10),
              Coef(d >> 10)) { XorCoef(c >> 10, d >> 10); }
  lemma Xor5(c: bv64, d: bv64) ensures Coef((c ^ d) >> 5) == Plus(Coef(c >> 5),
             Coef(d >> 5)) { XorCoef(c >> 5, d >> 5); }

  lemma SameEight(p: Poly, q: Poly)
    requires |p| == |q| == 8
    requires p[0] == q[0] && p[1] == q[1] && p[2] == q[2] && p[3] == q[3]
    requires p[4] == q[4] && p[5] == q[5] && p[6] == q[6] && p[7] == q[7]
    ensures p == q
  {}

  lemma GroupsXor(c: bv64, d: bv64)
    ensures Groups(c ^ d) == Add(Groups(c), Groups(d))
  {
    Xor35(c, d); Xor30(c, d); Xor25(c, d); Xor20(c, d); Xor15(c, d); Xor10(c, d); Xor5(c, d); XorCoef(c, d);
    SameEight(Groups(c ^ d), Add(Groups(c), Groups(d)));
  }

  lemma UnpackXor(a: Word, b: Word)
    ensures Unpack(Xor(a, b)) == Add(Unpack(a), Unpack(b))
  {
    GroupsXor(a.bits, b.bits);
  }

  lemma GroupsShift(c: bv64, d: bv5)
    ensures Groups(Shifted(c, d)) == Groups(c)[1..] + [Symbol(d)]
  {
    ShiftCoefs(c, d);
    SameEight(Groups(Shifted(c, d)), Groups(c)[1..] + [Symbol(d)]);
  }

  lemma UnpackShift(w: Word, d: Symbol)
    ensures Unpack(ShiftIn(w, d)) == Unpack(w)[1..] + [d]
  {
    GroupsShift(w.bits, d.bits);
  }

  /** The packed constants are the multiples {1}, {2}, {4}, {8} and {16} of the generator. */
  lemma GroupsConstants()
    ensures Groups(0x98f2bc8e61) == Scale(Symbol(1), G)[1..]
    ensures Groups(0x79b76d99e2) == Scale(Symbol(2), G)[1..]
    ensures Groups(0xf33e5fb3c4) == Scale(Symbol(4), G)[1..]
    ensures Groups(0xae2eabe2a8) == Scale(Symbol(8), G)[1..]
    ensures Groups(0x1e4f43e470) == Scale(Symbol(16), G)[1..]
  {
    SameEight(Groups(0x98f2bc8e61), Scale(Symbol(1), G)[1..]);
    SameEight(Groups(0x79b76d99e2), Scale(Symbol(2), G)[1..]);
    SameEight(Groups(0xf33e5fb3c4), Scale(Symbol(4), G)[1..]);
    SameEight(Groups(0xae2eabe2a8), Scale(Symbol(8), G)[1..]);
    SameEight(Groups(0x1e4f43e470), Scale(Symbol(16), G)[1..]);
  }

  function FoldPoly(p: Poly, c: Symbol, n: bv5): (q: Poly)
    requires |p| == 8
    ensures |q| == 8
  {
    if c.bits & n != 0 then Add(p, Scale(Symbol(n), G)[1..]) else p
  }

  lemma FoldUnpack(w: Word, c0: bv64, bit: bv64, k: bv64, n: bv5)
    requires c0 & bit != 0 <==> Coef(c0).bits & n != 0
    requires Groups(k) == Scale(Symbol(n), G)[1..]
    ensures Unpack(Fold(w, c0, bit, k)) == FoldPoly(Unpack(w), Coef(c0), n)
  {
    hide Groups, Coef, Scale, Add, G;
    GroupsXor(w.bits, k);
  }

  lemma HighBits(c: bv64)
    requires c < 0x100_0000_0000
    ensures var c0, s := c >> 35, Coef(c >> 35).bits;
      && (c0 & 0x01 != 0 <==> s & 0x01 != 0) && (c0 & 0x02 != 0 <==> s & 0x02 != 0)
      && (c0 & 0x04 != 0 <==> s & 0x04 != 0) && (c0 & 0x08 != 0 <==> s & 0x08 != 0)
      && (c0 & 0x10 != 0 <==> s & 0x10 != 0)
  {}

  function FoldSymbol(x: Symbol, c: Symbol, n: bv5, g: Symbol): Symbol {
    if c.bits & n != 0 then Plus(x, Times(Symbol(n), g)) else x
  }

  lemma TimesPowers(g: Symbol)
    ensures Times(Symbol(1), g) == g && Times(Symbol(2), g) == Twice(g)
    ensures Times(Symbol(4), g) == Twice(Twice(g)) && Times(Symbol(8), g) == Twice(Twice(Twice(g)))
    ensures Times(Symbol(16), g) == Twice(Twice(Twice(Twice(g))))
  {}

  lemma FoldIsPick(x: Symbol, c: Symbol, n: bv5, g: Symbol, m: Symbol)
    requires Times(Symbol(n), g) == m
    ensures FoldSymbol(x, c, n, g) == Plus(x, Pick(c, n, m))
  {
    PlusZero(x);
  }

  lemma Regroup(x: Symbol, a: Symbol, b: Symbol, c: Symbol, d: Symbol, e: Symbol)
    ensures Plus(Plus(Plus(Plus(Plus(x, a), b), c), d), e) == Plus(x, Plus(a, Plus(b, Plus(c, Plus(d, e)))))
  {
    PlusAssoc(Plus(Plus(Plus(x, a), b), c), d, e);
    PlusAssoc(Plus(Plus(x, a), b), c, Plus(d, e));
    PlusAssoc(Plus(x, a), b, Plus(c, Plus(d, e)));
    PlusAssoc(x, a, Plus(b, Plus(c, Plus(d, e))));
  }

  /** Adding the selected multiples one by one adds the product. */
  lemma FoldSymbols(x: Symbol, c: Symbol, g: Symbol)
    ensures FoldSymbol(FoldSymbol(FoldSymbol(FoldSymbol(FoldSymbol(x, c, 1, g), c, 2, g), c, 4, g), c, 8, g), c, 16, g)
            == Plus(x, Times(c, g))
  {
    TimesPowers(g);
    var g2, g4, g8 := Twice(g), Twice(Twice(g)), Twice(Twice(Twice(g)));
    var x1, x2 := FoldSymbol(x, c, 1, g), FoldSymbol(FoldSymbol(x, c, 1, g), c, 2, g);
    var x4 := FoldSymbol(x2, c, 4, g);
    FoldIsPick(x, c, 1, g, g);
    FoldIsPick(x1, c, 2, g, g2);
    FoldIsPick(x2, c, 4, g, g4);
    FoldIsPick(x4, c, 8, g, g8);
    FoldIsPick(FoldSymbol(x4, c, 8, g), c, 16, g, Twice(g8));
    Regroup(x, Pick(c, 1, g), Pick(c, 2, g2), Pick(c, 4, g4), Pick(c, 8, g8), Pick(c, 16, Twice(g8)));
  }

  lemma FoldPolys(p: Poly, c: Symbol)
    requires |p| == 8
    ensures FoldPoly(FoldPoly(FoldPoly(FoldPoly(FoldPoly(p, c, 1), c, 2), c, 4), c, 8), c, 16)
            == Add(p, Scale(c, G)[1..])
  {
    forall i | 0 <= i < 8
      ensures FoldPoly(FoldPoly(FoldPoly(FoldPoly(FoldPoly(p, c, 1), c, 2), c, 4), c, 8), c, 16)[i]
              == Plus(p[i], Times(c, G[i + 1]))
    {
      FoldSymbols(p[i], c, G[i + 1]);
    }
  }

  /** One turn of the loop on packed words is one step of long division. */
  lemma StepRefines(w: Word, d: Symbol)
    requires w.Valid()
    ensures Unpack(Step(w, d)) == RemStep(Unpack(w), d)
  {
    var c0, c, w0 := w.bits >> 35, Coef(w.bits >> 35), ShiftIn(w, d);
    HighBits(w.bits);
    GroupsConstants();
    UnpackShift(w, d);
    var w1 := Fold(w0, c0, 0x01, 0x98f2bc8e61);
    FoldUnpack(w0, c0, 0x01, 0x98f2bc8e61, 1);
    var w2 := Fold(w1, c0, 0x02, 0x79b76d99e2);
    FoldUnpack(w1, c0, 0x02, 0x79b76d99e2, 2);
    var w3 := Fold(w2, c0, 0x04, 0xf33e5fb3c4);
    FoldUnpack(w2, c0, 0x04, 0xf33e5fb3c4, 4);
    var w4 := Fold(w3, c0, 0x08, 0xae2eabe2a8);
    FoldUnpack(w3, c0, 0x08, 0xae2eabe2a8, 8);
    FoldUnpack(w4, c0, 0x10, 0x1e4f43e470, 16);
    FoldPolys(Unpack(w0), c);
  }

  lemma {:induction false} FeedRefines(w: Word, v: Poly)
    requires w.Valid()
    ensures Feed(w, v).Valid() && Unpack(Feed(w, v)) == RemFrom(Unpack(w), v)
  {
    if v != [] {
      var u := v[..|v|-1];
      FeedRefines(w, u);
      StepBound(Feed(w, u), v[|v|-1]);
      StepRefines(Feed(w, u), v[|v|-1]);
    }
  }

  const START := Word(1)

  lemma UnpackStart()
    ensures Unpack(START) == Zeros(7) + [ONE]
  {
    SameEight(Unpack(START), Zeros(7) + [ONE]);
  }

  /** The checksum loop computes the remainder of the input polynomial, with its implicit
      leading 1, modulo the generator: r is that remainder for some quotient, exactly when
      it is what the packed accumulator holds. */
  lemma PolyModIsRemainder(v: Poly, r: Poly)
    requires |r| == 8
    ensures (exists q: Poly :: |q| == |v| && Divides(Zeros(7) + [ONE] + v, q, r))
            <==> r == Unpack(Feed(START, v))
  {
    UnpackStart();
    FeedRefines(START, v);
    var r0 := Zeros(7) + [ONE];
    DivisionUnique(r0, v, QuotFrom(r0, v), RemFrom(r0, v));
    forall q: Poly | |q| == |v| && Divides(r0 + v, q, r) ensures r == RemFrom(r0, v) {
      DivisionUnique(r0, v, q, r);
    }
  }

  method PolyMod(v: Poly) returns (r: Word)
    ensures r == Xor(Feed(START, v), START) && r.Valid()
  {
    var c := START;
    for i := 0 to |v|
      invariant c == Feed(START, v[..i])
    {
      assert v[..i + 1][..i] == v[..i];
      c := Step(c, v[i]);
    }
    assert v[..|v|] == v;
    FeedRefines(START, v);
    r := Xor(c, START);
  }
}
