/** The Keccak-f[1600] permutation of FIPS 202 (sections 3.2 and 3.3), lane by lane:
    lane (x, y) of the state is element x + 5 * y, bit z of a lane has weight 2^z. */
module KeccakSpec {

  datatype Lane = Lane(bits: bv64)
  type State = seq<Lane>

  function Xor(a: Lane, b: Lane): Lane { Lane(a.bits ^ b.bits) }
  function AndNot(a: Lane, b: Lane): Lane { Lane(a.bits & !b.bits) }

  /** Bit z moves to bit (z + n) mod 64: n times by one place. */
  function Rol(x: Lane, n: nat): Lane {
    if n == 0 then x else RolOne(Rol(x, n - 1))
  }

  function RolOne(x: Lane): Lane {
    Lane((x.bits << 1) | (x.bits >> 63))
  }

  lemma {:induction false} RolAdd(x: Lane, m: nat, n: nat)
    ensures Rol(Rol(x, m), n) == Rol(x, m + n)
    decreases n
  {
    if n > 0 {
      RolAdd(x, m, n - 1);
    }
  }

  function Idx(x: nat, y: nat): (i: nat)
    requires x < 5 && y < 5
    ensures i < 25
  {
    x + 5 * y
  }

  function Column(s: State, x: nat): Lane
    requires |s| == 25 && x < 5
  {
    Xor(Xor(Xor(Xor(s[x], s[x + 5]), s[x + 10]), s[x + 15]), s[x + 20])
  }

  function ThetaD(s: State, x: nat): Lane
    requires |s| == 25 && x < 5
  {
    Xor(Column(s, (x + 4) % 5), Rol(Column(s, (x + 1) % 5), 1))
  }

  function ColumnsWith<T>(s: seq<T>, d: seq<T>, f: (T, T) -> T): (r: seq<T>)
    requires |s| == 25 && |d| == 5
    ensures |r| == 25
  {
    seq(25, i requires 0 <= i < 25 => f(s[i], d[i % 5]))
  }

  /** Section 3.2.1. */
  function Theta(s: State): (r: State)
    requires |s| == 25
    ensures |r| == 25
  {
    ColumnsWith(s, seq(5, x requires 0 <= x < 5 => ThetaD(s, x)), Xor)
  }

  /** The rotation offsets modulo 64, by lane. */
  function Offset(i: nat): (n: nat)
    ensures n < 64
  {
    if i == 0 then 0 else if i == 1 then 1 else if i == 2 then 62 else if i == 3 then 28 else if i == 4 then 27 else
    if i == 5 then 36 else if i == 6 then 44 else if i == 7 then 6 else if i == 8 then 55 else if i == 9 then 20 else
    if i == 10 then 3 else if i == 11 then 10 else if i == 12 then 43 else if i == 13 then 25 else
    if i == 14 then 39 else
    if i == 15 then 41 else if i == 16 then 45 else if i == 17 then 15 else if i == 18 then 21 else
    if i == 19 then 8 else
    if i == 20 then 18 else if i == 21 then 2 else if i == 22 then 61 else if i == 23 then 56 else 14
  }

  function RhoWith<T>(s: seq<T>, rol: (T, nat) -> T): (r: seq<T>)
    requires |s| == 25
    ensures |r| == 25
  {
    seq(25, i requires 0 <= i < 25 => rol(s[i], Offset(i)))
  }

  /** Section 3.2.2. */
  function Rho(s: State): (r: State)
    requires |s| == 25
    ensures |r| == 25
  {
    RhoWith(s, Rol)
  }

  /** The walk (x, y) -> (y, 2x + 3y) of section 3.2.2 that starts at (1, 0). */
  function Walk(t: nat): (p: (nat, nat))
    ensures p.0 < 5 && p.1 < 5
  {
    if t == 0 then (1, 0) else var (x, y) := Walk(t - 1); (y, (2 * x + 3 * y) % 5)
  }

  function Triangle(t: nat): nat {
    (t + 1) * (t + 2) / 2
  }

  /** The lanes in the order the walk meets them. */
  function LaneAt(t: nat): nat {
    if t == 0 then 1 else if t == 1 then 10 else if t == 2 then 7 else if t == 3 then 11 else
    if t == 4 then 17 else if t == 5 then 18 else
    if t == 6 then 3 else if t == 7 then 5 else if t == 8 then 16 else if t == 9 then 8 else
    if t == 10 then 21 else if t == 11 then 24 else
    if t == 12 then 4 else if t == 13 then 15 else if t == 14 then 23 else if t == 15 then 19 else
    if t == 16 then 13 else if t == 17 then 12 else
    if t == 18 then 2 else if t == 19 then 20 else if t == 20 then 14 else if t == 21 then 22 else
    if t == 22 then 9 else 6
  }

  function TriangleMod(t: nat): nat {
    if t == 0 then 1 else if t == 1 then 3 else if t == 2 then 6 else if t == 3 then 10 else
    if t == 4 then 15 else if t == 5 then 21 else
    if t == 6 then 28 else if t == 7 then 36 else if t == 8 then 45 else if t == 9 then 55 else
    if t == 10 then 2 else if t == 11 then 14 else
    if t == 12 then 27 else if t == 13 then 41 else if t == 14 then 56 else if t == 15 then 8 else
    if t == 16 then 25 else if t == 17 then 43 else
    if t == 18 then 62 else if t == 19 then 18 else if t == 20 then 39 else if t == 21 then 61 else
    if t == 22 then 20 else 44
  }

  predicate WalksOn(i: nat, j: nat) {
    (i / 5, (2 * (i % 5) + 3 * (i / 5)) % 5) == (j % 5, j / 5)
  }

  lemma LaneStep0(t: nat) requires t < 6 ensures WalksOn(LaneAt(t), LaneAt(t + 1)) {}
  lemma LaneStep1(t: nat) requires 6 <= t < 12 ensures WalksOn(LaneAt(t), LaneAt(t + 1)) {}
  lemma LaneStep2(t: nat) requires 12 <= t < 18 ensures WalksOn(LaneAt(t), LaneAt(t + 1)) {}
  lemma LaneStep3(t: nat) requires 18 <= t < 23 ensures WalksOn(LaneAt(t), LaneAt(t + 1)) {}

  lemma LaneStep(t: nat)
    requires t < 23
    ensures WalksOn(LaneAt(t), LaneAt(t + 1))
  {
    hide LaneAt, WalksOn;
    if t < 6 { LaneStep0(t); } else if t < 12 { LaneStep1(t); } else if t < 18 { LaneStep2(t); } else { LaneStep3(t); }
  }

  lemma WalkNext(t: nat, x: nat, y: nat, next: (nat, nat))
    requires t > 0 && Walk(t - 1) == (x, y) && next == (y, (2 * x + 3 * y) % 5)
    ensures Walk(t) == next
  {}

  lemma {:induction false} WalkTable(t: nat)
    requires t < 24
    ensures Walk(t) == (LaneAt(t) % 5, LaneAt(t) / 5)
  {
    hide LaneAt, Walk;
    if t == 0 {
      FirstLane();
    } else {
      var i, j := LaneAt(t - 1), LaneAt(t);
      WalkTable(t - 1);
      LaneStep(t - 1);
      WalkNext(t, i % 5, i / 5, (j % 5, j / 5));
    }
  }

  lemma FirstLane()
    ensures Walk(0) == (LaneAt(0) % 5, LaneAt(0) / 5)
  {}

  lemma WalkLanes(t: nat)
    requires t < 24
    ensures Idx(Walk(t).0, Walk(t).1) == LaneAt(t)
  {
    hide Walk, LaneAt;
    WalkTable(t);
  }

  lemma TriangleLow(t: nat)
    requires 0 <= t < 8
    ensures Triangle(t) % 64 == TriangleMod(t)
  {}

  lemma OffsetLow(t: nat)
    requires 0 <= t < 8
    ensures Offset(LaneAt(t)) == TriangleMod(t)
  {}

  lemma TriangleMid(t: nat)
    requires 8 <= t < 16
    ensures Triangle(t) % 64 == TriangleMod(t)
  {
    hide Triangle, TriangleMod;
    if t < 12 { TriangleMidLow(t); } else { TriangleMidHigh(t); }
  }

  lemma TriangleMidLow(t: nat)
    requires 8 <= t < 12
    ensures Triangle(t) % 64 == TriangleMod(t)
  {}

  lemma TriangleMidHigh(t: nat)
    requires 12 <= t < 16
    ensures Triangle(t) % 64 == TriangleMod(t)
  {}

  lemma OffsetMid(t: nat)
    requires 8 <= t < 16
    ensures Offset(LaneAt(t)) == TriangleMod(t)
  {}

  lemma TriangleHigh(t: nat)
    requires 16 <= t < 24
    ensures Triangle(t) % 64 == TriangleMod(t)
  {}

  lemma OffsetHigh(t: nat)
    requires 16 <= t < 24
    ensures Offset(LaneAt(t)) == TriangleMod(t)
  {}

  /** Along the walk the offsets are the triangular numbers. */
  lemma OffsetsAreTriangular(t: nat)
    requires t < 24
    ensures Offset(Idx(Walk(t).0, Walk(t).1)) == Triangle(t) % 64
  {
    WalkLanes(t);
    if t < 8 { TriangleLow(t); OffsetLow(t); }
    else if t < 16 { TriangleMid(t); OffsetMid(t); }
    else { TriangleHigh(t); OffsetHigh(t); }
  }

  /** The walk meets every lane but (0, 0), so the triangular numbers fix all offsets. */
  lemma WalkMeetsEveryLane(i: nat)
    requires 0 < i < 25
    ensures exists t: nat :: t < 24 && Idx(Walk(t).0, Walk(t).1) == i
  {
    hide Walk;
    forall t: nat | t < 24 ensures Idx(Walk(t).0, Walk(t).1) == LaneAt(t) {
      WalkLanes(t);
    }
    var t := StepTo(i);
    assert LaneAt(t) == i;
  }

  /** The step of the walk that meets lane i. */
  function StepTo(i: nat): (t: nat)
    requires 0 < i < 25
    ensures t < 24 && LaneAt(t) == i
  {
    if i == 1 then 0 else if i == 2 then 18 else if i == 3 then 6 else if i == 4 then 12 else
    if i == 5 then 7 else if i == 6 then 23 else
    if i == 7 then 2 else if i == 8 then 9 else if i == 9 then 22 else if i == 10 then 1 else
    if i == 11 then 3 else if i == 12 then 17 else
    if i == 13 then 16 else if i == 14 then 20 else if i == 15 then 13 else if i == 16 then 8 else
    if i == 17 then 4 else if i == 18 then 5 else
    if i == 19 then 15 else if i == 20 then 19 else if i == 21 then 10 else if i == 22 then 21 else
    if i == 23 then 14 else 11
  }

  /** The lane that pi moves to lane i. */
  function Source(i: nat): (j: nat)
    requires i < 25
    ensures j < 25
  {
    var x, y := i % 5, i / 5; Idx((x + 3 * y) % 5, x)
  }

  /** Section 3.2.3. */
  function Pi<T>(s: seq<T>): (r: seq<T>)
    requires |s| == 25
    ensures |r| == 25
  {
    seq(25, i requires 0 <= i < 25 => s[Source(i)])
  }

  function RowAt<T>(s: seq<T>, f: (T, T, T) -> T, i: nat): T
    requires |s| == 25 && i < 25
  {
    var x, row := i % 5, i - i % 5;
    f(s[i], s[row + (x + 1) % 5], s[row + (x + 2) % 5])
  }

  function RowsWith<T>(s: seq<T>, f: (T, T, T) -> T): (r: seq<T>)
    requires |s| == 25
    ensures |r| == 25
  {
    seq(25, i requires 0 <= i < 25 => RowAt(s, f, i))
  }

  function ChiMix(a: Lane, b: Lane, c: Lane): Lane {
    Xor(a, AndNot(c, b))
  }

  /** Section 3.2.4. */
  function Chi(s: State): (r: State)
    requires |s| == 25
    ensures |r| == 25
  {
    RowsWith(s, ChiMix)
  }

  /** The register of the rc generator in section 3.2.5, bit R[k] with weight 2^k. */
  datatype Bits8 = Bits8(r: bv8)

  function LfsrStep(b: Bits8): Bits8 {
    Bits8(if b.r & 0x80 != 0 then (b.r << 1) ^ 0x71 else b.r << 1)
  }

  function LfsrAt(t: nat): Bits8 {
    if t == 0 then Bits8(1) else LfsrStep(LfsrAt(t - 1))
  }

  function RcBit(b: Bits8, weight: bv64): bv64 {
    if b.r & 1 != 0 then weight else 0
  }

  /** The constant read off the register b and its next six values: bit 2^j - 1 is the j-th output. */
  function Constant(b: Bits8): Lane {
    var b1 := LfsrStep(b);
    var b2 := LfsrStep(b1);
    var b3 := LfsrStep(b2);
    var b4 := LfsrStep(b3);
    var b5 := LfsrStep(b4);
    var b6 := LfsrStep(b5);
    Lane(RcBit(b, 0x1) | RcBit(b1, 0x2) | RcBit(b2, 0x8) | RcBit(b3, 0x80) | RcBit(b4, 0x8000) |
         RcBit(b5, 0x8000_0000) | RcBit(b6, 0x8000_0000_0000_0000))
  }

  /** RC[ir]: bit 2^j - 1 is rc(j + 7 ir), for j = 0 .. 6. */
  function RoundConstant(ir: nat): Lane {
    Constant(LfsrAt(7 * ir))
  }

  /** Section 3.2.5. */
  function Iota(s: State, ir: nat): (r: State)
    requires |s| == 25
    ensures |r| == 25
  {
    s[0 := Xor(s[0], RoundConstant(ir))]
  }

  function Round(s: State, ir: nat): (r: State)
    requires |s| == 25
    ensures |r| == 25
  {
    Iota(Chi(Pi(Rho(Theta(s)))), ir)
  }

  /** The listed rounds, in order. */
  function Rounds(s: State, irs: seq<nat>): (r: State)
    requires |s| == 25
    ensures |r| == 25
  {
    if irs == [] then s else Round(Rounds(s, irs[..|irs|-1]), irs[|irs|-1])
  }

  function UpTo(n: nat): (irs: seq<nat>)
    ensures |irs| == n
  {
    seq(n, i => i)
  }

  /** Section 3.3 with 24 rounds. */
  function KeccakF(s: State): (r: State)
    requires |s| == 25
    ensures |r| == 25
  {
    Rounds(s, UpTo(24))
  }
}

/** Facts about the constants of Keccak.cpp. */
module KeccakTables {
  import opened KeccakSpec

  /** The source's rotateLeft. */
  function RotateLeft(x: Lane, n: bv8): Lane
    requires 0 < n < 64
  {
    Lane((x.bits << n) | (x.bits >> (64 - n)))
  }

  lemma Rotate1(x: Lane)
    ensures RotateLeft(x, 1) == Rol(x, 1)
  {
    assert Rol(x, 0) == x;
  }

  lemma Rotate2(x: Lane)
    ensures RotateLeft(x, 2) == Rol(x, 2)
  {
    hide Rol;
    Rotate1(x);
    Rotate1(RotateLeft(x, 1));
    RolAdd(x, 1, 1);
  }

  lemma Rotate3(x: Lane)
    ensures RotateLeft(x, 3) == Rol(x, 3)
  {
    hide Rol;
    Rotate2(x);
    Rotate1(RotateLeft(x, 2));
    RolAdd(x, 2, 1);
  }

  lemma Rotate6(x: Lane)
    ensures RotateLeft(x, 6) == Rol(x, 6)
  {
    hide Rol;
    Rotate3(x);
    Rotate3(RotateLeft(x, 3));
    RolAdd(x, 3, 3);
  }

  lemma Rotate8(x: Lane)
    ensures RotateLeft(x, 8) == Rol(x, 8)
  {
    hide Rol;
    Rotate6(x);
    Rotate2(RotateLeft(x, 6));
    RolAdd(x, 6, 2);
  }

  lemma Rotate10(x: Lane)
    ensures RotateLeft(x, 10) == Rol(x, 10)
  {
    hide Rol;
    Rotate8(x);
    Rotate2(RotateLeft(x, 8));
    RolAdd(x, 8, 2);
  }

  lemma Rotate14(x: Lane)
    ensures RotateLeft(x, 14) == Rol(x, 14)
  {
    hide Rol;
    Rotate8(x);
    Rotate6(RotateLeft(x, 8));
    RolAdd(x, 8, 6);
  }

  lemma Rotate15(x: Lane)
    ensures RotateLeft(x, 15) == Rol(x, 15)
  {
    hide Rol;
    Rotate14(x);
    Rotate1(RotateLeft(x, 14));
    RolAdd(x, 14, 1);
  }

  lemma Rotate18(x: Lane)
    ensures RotateLeft(x, 18) == Rol(x, 18)
  {
    hide Rol;
    Rotate15(x);
    Rotate3(RotateLeft(x, 15));
    RolAdd(x, 15, 3);
  }

  lemma Rotate20(x: Lane)
    ensures RotateLeft(x, 20) == Rol(x, 20)
  {
    hide Rol;
    Rotate18(x);
    Rotate2(RotateLeft(x, 18));
    RolAdd(x, 18, 2);
  }

  lemma Rotate21(x: Lane)
    ensures RotateLeft(x, 21) == Rol(x, 21)
  {
    hide Rol;
    Rotate20(x);
    Rotate1(RotateLeft(x, 20));
    RolAdd(x, 20, 1);
  }

  lemma Rotate25(x: Lane)
    ensures RotateLeft(x, 25) == Rol(x, 25)
  {
    hide Rol;
    Rotate15(x);
    Rotate10(RotateLeft(x, 15));
    RolAdd(x, 15, 10);
  }

  lemma Rotate27(x: Lane)
    ensures RotateLeft(x, 27) == Rol(x, 27)
  {
    hide Rol;
    Rotate25(x);
    Rotate2(RotateLeft(x, 25));
    RolAdd(x, 25, 2);
  }

  lemma Rotate28(x: Lane)
    ensures RotateLeft(x, 28) == Rol(x, 28)
  {
    hide Rol;
    Rotate27(x);
    Rotate1(RotateLeft(x, 27));
    RolAdd(x, 27, 1);
  }

  lemma Rotate36(x: Lane)
    ensures RotateLeft(x, 36) == Rol(x, 36)
  {
    hide Rol;
    Rotate28(x);
    Rotate8(RotateLeft(x, 28));
    RolAdd(x, 28, 8);
  }

  lemma Rotate39(x: Lane)
    ensures RotateLeft(x, 39) == Rol(x, 39)
  {
    hide Rol;
    Rotate36(x);
    Rotate3(RotateLeft(x, 36));
    RolAdd(x, 36, 3);
  }

  lemma Rotate41(x: Lane)
    ensures RotateLeft(x, 41) == Rol(x, 41)
  {
    hide Rol;
    Rotate39(x);
    Rotate2(RotateLeft(x, 39));
    RolAdd(x, 39, 2);
  }

  lemma Rotate43(x: Lane)
    ensures RotateLeft(x, 43) == Rol(x, 43)
  {
    hide Rol;
    Rotate41(x);
    Rotate2(RotateLeft(x, 41));
    RolAdd(x, 41, 2);
  }

  lemma Rotate44(x: Lane)
    ensures RotateLeft(x, 44) == Rol(x, 44)
  {
    hide Rol;
    Rotate43(x);
    Rotate1(RotateLeft(x, 43));
    RolAdd(x, 43, 1);
  }

  lemma Rotate45(x: Lane)
    ensures RotateLeft(x, 45) == Rol(x, 45)
  {
    hide Rol;
    Rotate44(x);
    Rotate1(RotateLeft(x, 44));
    RolAdd(x, 44, 1);
  }

  lemma Rotate55(x: Lane)
    ensures RotateLeft(x, 55) == Rol(x, 55)
  {
    hide Rol;
    Rotate45(x);
    Rotate10(RotateLeft(x, 45));
    RolAdd(x, 45, 10);
  }

  lemma Rotate56(x: Lane)
    ensures RotateLeft(x, 56) == Rol(x, 56)
  {
    hide Rol;
    Rotate55(x);
    Rotate1(RotateLeft(x, 55));
    RolAdd(x, 55, 1);
  }

  lemma Rotate61(x: Lane)
    ensures RotateLeft(x, 61) == Rol(x, 61)
  {
    hide Rol;
    Rotate55(x);
    Rotate6(RotateLeft(x, 55));
    RolAdd(x, 55, 6);
  }

  lemma Rotate62(x: Lane)
    ensures RotateLeft(x, 62) == Rol(x, 62)
  {
    hide Rol;
    Rotate61(x);
    Rotate1(RotateLeft(x, 61));
    RolAdd(x, 61, 1);
  }

  function XorMask(round: nat): Lane {
    if round == 0 then Lane(0x0000000000000001) else if round == 1 then Lane(0x0000000000008082) else
    if round == 2 then Lane(0x800000000000808a) else if round == 3 then Lane(0x8000000080008000) else
    if round == 4 then Lane(0x000000000000808b) else if round == 5 then Lane(0x0000000080000001) else
    if round == 6 then Lane(0x8000000080008081) else if round == 7 then Lane(0x8000000000008009) else
    if round == 8 then Lane(0x000000000000008a) else if round == 9 then Lane(0x0000000000000088) else
    if round == 10 then Lane(0x0000000080008009) else if round == 11 then Lane(0x000000008000000a) else
    if round == 12 then Lane(0x000000008000808b) else if round == 13 then Lane(0x800000000000008b) else
    if round == 14 then Lane(0x8000000000008089) else if round == 15 then Lane(0x8000000000008003) else
    if round == 16 then Lane(0x8000000000008002) else if round == 17 then Lane(0x8000000000000080) else
    if round == 18 then Lane(0x000000000000800a) else if round == 19 then Lane(0x800000008000000a) else
    if round == 20 then Lane(0x8000000080008081) else if round == 21 then Lane(0x8000000000008080) else
    if round == 22 then Lane(0x0000000080000001) else Lane(0x8000000080008008)
  }

  /** The register at the start of each round. */
  function Seed(round: nat): Bits8 {
    if round == 0 then Bits8(1) else if round == 1 then Bits8(128) else if round == 2 then Bits8(216) else
    if round == 3 then Bits8(26) else
    if round == 4 then Bits8(223) else if round == 5 then Bits8(9) else if round == 6 then Bits8(53) else
    if round == 7 then Bits8(79) else
    if round == 8 then Bits8(202) else if round == 9 then Bits8(112) else if round == 10 then Bits8(65) else
    if round == 11 then Bits8(236) else
    if round == 12 then Bits8(213) else if round == 13 then Bits8(205) else if round == 14 then Bits8(99) else
    if round == 15 then Bits8(171) else
    if round == 16 then Bits8(170) else if round == 17 then Bits8(42) else if round == 18 then Bits8(242) else
    if round == 19 then Bits8(232) else
    if round == 20 then Bits8(55) else if round == 21 then Bits8(62) else if round == 22 then Bits8(11) else Bits8(68)
  }

  function Seven(b: Bits8): Bits8 {
    LfsrStep(LfsrStep(LfsrStep(LfsrStep(LfsrStep(LfsrStep(LfsrStep(b)))))))
  }

  lemma SeedStep0(round: nat) requires 0 <= round < 6 ensures Seven(Seed(round)) == Seed(round + 1) {}
  lemma SeedStep1(round: nat) requires 6 <= round < 12 ensures Seven(Seed(round)) == Seed(round + 1) {}
  lemma SeedStep2(round: nat) requires 12 <= round < 18 ensures Seven(Seed(round)) == Seed(round + 1) {}
  lemma SeedStep3(round: nat) requires 18 <= round < 23 ensures Seven(Seed(round)) == Seed(round + 1) {}

  lemma SeedStep(round: nat)
    requires round < 23
    ensures Seven(Seed(round)) == Seed(round + 1)
  {
    if round < 6 { SeedStep0(round); } else if round < 12 { SeedStep1(round); }
    else if round < 18 { SeedStep2(round); } else { SeedStep3(round); }
  }

  lemma LfsrSeven(t: nat)
    ensures LfsrAt(t + 7) == Seven(LfsrAt(t))
  {
    assert LfsrAt(t + 2) == LfsrStep(LfsrStep(LfsrAt(t)));
    assert LfsrAt(t + 4) == LfsrStep(LfsrStep(LfsrAt(t + 2)));
    assert LfsrAt(t + 6) == LfsrStep(LfsrStep(LfsrAt(t + 4)));
  }

  lemma {:induction false} SeedIsRegister(round: nat)
    requires round < 24
    ensures LfsrAt(7 * round) == Seed(round)
  {
    if round > 0 {
      SeedIsRegister(round - 1);
      LfsrSeven(7 * (round - 1));
      SeedStep(round - 1);
    }
  }

  lemma SeedGives0(round: nat) requires 0 <= round < 4 ensures Constant(Seed(round)) == XorMask(round) {}
  lemma SeedGives1(round: nat) requires 4 <= round < 8 ensures Constant(Seed(round)) == XorMask(round) {}
  lemma SeedGives2(round: nat) requires 8 <= round < 12 ensures Constant(Seed(round)) == XorMask(round) {}
  lemma SeedGives3(round: nat) requires 12 <= round < 16 ensures Constant(Seed(round)) == XorMask(round) {}
  lemma SeedGives4(round: nat) requires 16 <= round < 20 ensures Constant(Seed(round)) == XorMask(round) {}
  lemma SeedGives5(round: nat) requires 20 <= round < 24 ensures Constant(Seed(round)) == XorMask(round) {}

  lemma SeedGives(round: nat)
    requires round < 24
    ensures Constant(Seed(round)) == XorMask(round)
  {
    if round < 4 { SeedGives0(round); } else if round < 8 { SeedGives1(round); }
    else if round < 12 { SeedGives2(round); } else if round < 16 { SeedGives3(round); }
    else if round < 20 { SeedGives4(round); } else { SeedGives5(round); }
  }

  /** The 24 tabled masks are the round constants of the rc generator. */
  lemma MasksAreRoundConstants(round: nat)
    requires round < 24
    ensures XorMask(round) == RoundConstant(round)
  {
    SeedIsRegister(round);
    SeedGives(round);
  }

  /** Where the 24 assignments of the rho/pi cycle take lane i from, and by how much it is turned. */
  function FromLane(i: nat): (j: nat)
    ensures j < 25
  {
    if i == 0 then 0 else if i == 1 then 6 else if i == 2 then 12 else if i == 3 then 18 else if i == 4 then 24 else
    if i == 5 then 3 else if i == 6 then 9 else if i == 7 then 10 else if i == 8 then 16 else if i == 9 then 22 else
    if i == 10 then 1 else if i == 11 then 7 else if i == 12 then 13 else if i == 13 then 19 else
    if i == 14 then 20 else
    if i == 15 then 4 else if i == 16 then 5 else if i == 17 then 11 else if i == 18 then 17 else
    if i == 19 then 23 else
    if i == 20 then 2 else if i == 21 then 8 else if i == 22 then 14 else if i == 23 then 15 else 21
  }

  function FromShift(i: nat): (n: nat)
    ensures n < 64
  {
    if i == 0 then 0 else if i == 1 then 44 else if i == 2 then 43 else if i == 3 then 21 else if i == 4 then 14 else
    if i == 5 then 28 else if i == 6 then 20 else if i == 7 then 3 else if i == 8 then 45 else if i == 9 then 61 else
    if i == 10 then 1 else if i == 11 then 6 else if i == 12 then 25 else if i == 13 then 8 else if i == 14 then 18 else
    if i == 15 then 27 else if i == 16 then 36 else if i == 17 then 10 else if i == 18 then 15 else
    if i == 19 then 56 else
    if i == 20 then 62 else if i == 21 then 55 else if i == 22 then 39 else if i == 23 then 41 else 2
  }

  lemma MovesRow0(i: nat)
    requires 0 <= i < 5
    ensures FromLane(i) == Source(i) && FromShift(i) == Offset(Source(i))
  {}

  lemma MovesRow1(i: nat)
    requires 5 <= i < 10
    ensures FromLane(i) == Source(i) && FromShift(i) == Offset(Source(i))
  {}

  lemma MovesRow2(i: nat)
    requires 10 <= i < 15
    ensures FromLane(i) == Source(i) && FromShift(i) == Offset(Source(i))
  {}

  lemma MovesRow3(i: nat)
    requires 15 <= i < 20
    ensures FromLane(i) == Source(i) && FromShift(i) == Offset(Source(i))
  {}

  lemma MovesRow4(i: nat)
    requires 20 <= i < 25
    ensures FromLane(i) == Source(i) && FromShift(i) == Offset(Source(i))
  {}

  ghost predicate Moved<T>(a: seq<T>, b: seq<T>, rol: (T, nat) -> T, i: nat)
    requires |a| == |b| == 25 && i < 25
  {
    b[i] == rol(a[FromLane(i)], FromShift(i))
  }

  lemma MovedRow0<T>(a: seq<T>, b: seq<T>, rol: (T, nat) -> T, i: nat)
    requires |a| == |b| == 25 && 0 <= i < 5
    requires b[0] == rol(a[0], 0)
    requires b[1] == rol(a[6], 44)
    requires b[2] == rol(a[12], 43)
    requires b[3] == rol(a[18], 21)
    requires b[4] == rol(a[24], 14)
    ensures Moved(a, b, rol, i)
  {}

  lemma MovedRow1<T>(a: seq<T>, b: seq<T>, rol: (T, nat) -> T, i: nat)
    requires |a| == |b| == 25 && 5 <= i < 10
    requires b[5] == rol(a[3], 28)
    requires b[6] == rol(a[9], 20)
    requires b[7] == rol(a[10], 3)
    requires b[8] == rol(a[16], 45)
    requires b[9] == rol(a[22], 61)
    ensures Moved(a, b, rol, i)
  {}

  lemma MovedRow2<T>(a: seq<T>, b: seq<T>, rol: (T, nat) -> T, i: nat)
    requires |a| == |b| == 25 && 10 <= i < 15
    requires b[10] == rol(a[1], 1)
    requires b[11] == rol(a[7], 6)
    requires b[12] == rol(a[13], 25)
    requires b[13] == rol(a[19], 8)
    requires b[14] == rol(a[20], 18)
    ensures Moved(a, b, rol, i)
  {}

  lemma MovedRow3<T>(a: seq<T>, b: seq<T>, rol: (T, nat) -> T, i: nat)
    requires |a| == |b| == 25 && 15 <= i < 20
    requires b[15] == rol(a[4], 27)
    requires b[16] == rol(a[5], 36)
    requires b[17] == rol(a[11], 10)
    requires b[18] == rol(a[17], 15)
    requires b[19] == rol(a[23], 56)
    ensures Moved(a, b, rol, i)
  {}

  lemma MovedRow4<T>(a: seq<T>, b: seq<T>, rol: (T, nat) -> T, i: nat)
    requires |a| == |b| == 25 && 20 <= i < 25
    requires b[20] == rol(a[2], 62)
    requires b[21] == rol(a[8], 55)
    requires b[22] == rol(a[14], 39)
    requires b[23] == rol(a[15], 41)
    requires b[24] == rol(a[21], 2)
    ensures Moved(a, b, rol, i)
  {}

  /** The lanes the cycle writes are those of rho followed by pi, whatever a rotation does. */
  lemma CycleIsPiRho<T>(a: seq<T>, b: seq<T>, rol: (T, nat) -> T)
    requires |a| == |b| == 25
    requires b[0] == rol(a[0], 0) && b[1] == rol(a[6], 44) && b[2] == rol(a[12], 43)
    requires b[3] == rol(a[18], 21) && b[4] == rol(a[24], 14) && b[5] == rol(a[3], 28)
    requires b[6] == rol(a[9], 20) && b[7] == rol(a[10], 3) && b[8] == rol(a[16], 45)
    requires b[9] == rol(a[22], 61) && b[10] == rol(a[1], 1) && b[11] == rol(a[7], 6)
    requires b[12] == rol(a[13], 25) && b[13] == rol(a[19], 8) && b[14] == rol(a[20], 18)
    requires b[15] == rol(a[4], 27) && b[16] == rol(a[5], 36) && b[17] == rol(a[11], 10)
    requires b[18] == rol(a[17], 15) && b[19] == rol(a[23], 56) && b[20] == rol(a[2], 62)
    requires b[21] == rol(a[8], 55) && b[22] == rol(a[14], 39) && b[23] == rol(a[15], 41)
    requires b[24] == rol(a[21], 2)
    ensures b == Pi(RhoWith(a, rol))
  {
    var c := Pi(RhoWith(a, rol));
    forall i | 0 <= i < 25 ensures b[i] == c[i] {
      if i < 5 { MovedRow0(a, b, rol, i); MovesRow0(i); }
      else if i < 10 { MovedRow1(a, b, rol, i); MovesRow1(i); }
      else if i < 15 { MovedRow2(a, b, rol, i); MovesRow2(i); }
      else if i < 20 { MovedRow3(a, b, rol, i); MovesRow3(i); }
      else { MovedRow4(a, b, rol, i); MovesRow4(i); }
      assert c[i] == RhoWith(a, rol)[Source(i)];
    }
  }
}
