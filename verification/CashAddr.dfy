/** The cashaddr codec: a prefix, a colon and 5-bit symbols closed by an eight-symbol checksum. */
module CashAddr {
  import opened Wrappers
  import opened Gf32
  import opened PackedRemainder

  newtype byte = x: int | 0 <= x < 256
  type Bytes = seq<byte>

  function Charset0(b: bv5): byte { // qpzry9x8
    if b == 0 then 113 else if b == 1 then 112 else if b == 2 then 122 else if b == 3 then 114 else
    if b == 4 then 121 else if b == 5 then 57 else if b == 6 then 120 else 56
  }

  function Charset1(b: bv5): byte { // gf2tvdw0
    if b == 8 then 103 else if b == 9 then 102 else if b == 10 then 50 else if b == 11 then 116 else
    if b == 12 then 118 else if b == 13 then 100 else if b == 14 then 119 else 48
  }

  function Charset2(b: bv5): byte { // s3jn54kh
    if b == 16 then 115 else if b == 17 then 51 else if b == 18 then 106 else if b == 19 then 110 else
    if b == 20 then 53 else if b == 21 then 52 else if b == 22 then 107 else 104
  }

  function Charset3(b: bv5): byte { // ce6mua7l
    if b == 24 then 99 else if b == 25 then 101 else if b == 26 then 54 else if b == 27 then 109 else
    if b == 28 then 117 else if b == 29 then 97 else if b == 30 then 55 else 108
  }

  function Charset(s: Symbol): byte {
    if s.bits < 8 then Charset0(s.bits) else if s.bits < 16 then Charset1(s.bits)
    else if s.bits < 24 then Charset2(s.bits) else Charset3(s.bits)
  }

  /** The character set of the code, in order. */
  const CHARSET := "qpzry9x8gf2tvdw0s3jn54khce6mua7l"

  lemma Charset0Exact(b: bv5) requires b < 8 ensures Charset0(b) as int == CHARSET[b as int] as int {}
  lemma Charset1Exact(b: bv5) requires 8 <= b < 16 ensures Charset1(b) as int == CHARSET[b as int] as int {}
  lemma Charset2Exact(b: bv5) requires 16 <= b < 24 ensures Charset2(b) as int == CHARSET[b as int] as int {}
  lemma Charset3Exact(b: bv5) requires 24 <= b ensures Charset3(b) as int == CHARSET[b as int] as int {}

  lemma CharsetExact(s: Symbol)
    ensures Charset(s) as int == CHARSET[s.bits as int] as int
  {
    hide Charset0, Charset1, Charset2, Charset3, CHARSET;
    if s.bits < 8 { Charset0Exact(s.bits); } else if s.bits < 16 { Charset1Exact(s.bits); }
    else if s.bits < 24 { Charset2Exact(s.bits); } else { Charset3Exact(s.bits); }
  }

  /** The digit row of the decoding table. */
  function DigitRev(k: int): Option<Symbol> {
    if k == 0 then Some(Symbol(15)) else if k == 1 then None else if k == 2 then Some(Symbol(10)) else
    if k == 3 then Some(Symbol(17)) else if k == 4 then Some(Symbol(21)) else if k == 5 then Some(Symbol(20)) else
    if k == 6 then Some(Symbol(26)) else if k == 7 then Some(Symbol(30)) else
    if k == 8 then Some(Symbol(7)) else Some(Symbol(5))
  }

  /** The letter rows of the decoding table, the same for both cases ('a' is k = 0). */
  function LetterRev(k: int): Option<Symbol> {
    if k < 7 then
      if k == 0 then Some(Symbol(29)) else if k == 1 then None else if k == 2 then Some(Symbol(24)) else
      if k == 3 then Some(Symbol(13)) else if k == 4 then Some(Symbol(25)) else
      if k == 5 then Some(Symbol(9)) else Some(Symbol(8))
    else if k < 14 then
      if k == 7 then Some(Symbol(23)) else if k == 8 then None else if k == 9 then Some(Symbol(18)) else
      if k == 10 then Some(Symbol(22)) else if k == 11 then Some(Symbol(31)) else
      if k == 12 then Some(Symbol(27)) else Some(Symbol(19))
    else if k < 20 then
      if k == 14 then None else if k == 15 then Some(Symbol(1)) else if k == 16 then Some(Symbol(0)) else
      if k == 17 then Some(Symbol(3)) else if k == 18 then Some(Symbol(16)) else Some(Symbol(11))
    else
      if k == 20 then Some(Symbol(28)) else if k == 21 then Some(Symbol(12)) else if k == 22 then Some(Symbol(14)) else
      if k == 23 then Some(Symbol(6)) else if k == 24 then Some(Symbol(4)) else Some(Symbol(2))
  }

  /** The decoding table; None is its -1. */
  function CharsetRev(c: byte): Option<Symbol> {
    if IsDigit(c) then DigitRev(c as int - 48)
    else if IsUpper(c) then LetterRev(c as int - 65)
    else if IsLower(c) then LetterRev(c as int - 97)
    else None
  }

  predicate IsLower(c: byte) { 97 <= c <= 122 }  // 'a'..'z'
  predicate IsUpper(c: byte) { 65 <= c <= 90 }   // 'A'..'Z'
  predicate IsDigit(c: byte) { 48 <= c <= 57 }   // '0'..'9'

  const COLON: byte := 58

  /** `c | 0x20`. */
  function LowerCase(c: byte): byte {
    if (c / 32) % 2 == 0 then c + 32 else c
  }

  function LowerAll(s: Bytes): (t: Bytes)
    ensures |t| == |s|
  {
    seq(|s|, i requires 0 <= i < |s| => LowerCase(s[i]))
  }

  /** `c & 0x1f`. */
  function LowBits(c: byte): Symbol {
    Symbol((c as int % 32) as bv5)
  }

  function Expand(prefix: Bytes): Poly {
    seq(|prefix|, i requires 0 <= i < |prefix| => LowBits(prefix[i])) + [ZERO]
  }

  predicate VerifyChecksum(prefix: Bytes, payload: Poly) {
    Xor(Feed(START, Expand(prefix) + payload), START) == Word(0)
  }

  function Checksum(prefix: Bytes, payload: Poly): (cs: Poly)
    ensures |cs| == 8
  {
    Unpack(Xor(Feed(START, Expand(prefix) + payload + Zeros(8)), START))
  }

  function Spell(p: Poly): (s: Bytes)
    ensures |s| == |p|
  {
    seq(|p|, i requires 0 <= i < |p| => Charset(p[i]))
  }

  function Encoded(prefix: Bytes, payload: Poly): Bytes {
    prefix + [COLON] + Spell(payload + Checksum(prefix, payload))
  }

  // ---- the checksum ----

  lemma XorStart(w: Word)
    ensures Xor(w, START) == Word(0) <==> w == START
  {}

  lemma UnpackInjective(v: Word, w: Word)
    requires v.Valid() && w.Valid() && Unpack(v) == Unpack(w)
    ensures v == w
  {
    BitsInjective(v.bits, w.bits);
  }

  lemma BitsInjective(c: bv64, d: bv64)
    requires c < 0x100_0000_0000 && d < 0x100_0000_0000 && Groups(c) == Groups(d)
    ensures c == d
  {
    SameGroups(c, d);
    GroupsInjective(c, d);
  }

  lemma SameGroups(c: bv64, d: bv64)
    requires Groups(c) == Groups(d)
    ensures Coef(c >> 35) == Coef(d >> 35) && Coef(c >> 30) == Coef(d >> 30) && Coef(c >> 25) == Coef(d >> 25)
    ensures Coef(c >> 20) == Coef(d >> 20) && Coef(c >> 15) == Coef(d >> 15) && Coef(c >> 10) == Coef(d >> 10)
    ensures Coef(c >> 5) == Coef(d >> 5) && Coef(c) == Coef(d)
  {
    var p, q := Groups(c), Groups(d);
    assert p[0] == q[0] && p[1] == q[1] && p[2] == q[2] && p[3] == q[3];
    assert p[4] == q[4] && p[5] == q[5] && p[6] == q[6] && p[7] == q[7];
  }

  lemma GroupsInjective(c: bv64, d: bv64)
    requires c < 0x100_0000_0000 && d < 0x100_0000_0000
    requires Coef(c >> 35) == Coef(d >> 35) && Coef(c >> 30) == Coef(d >> 30) && Coef(c >> 25) == Coef(d >> 25)
    requires Coef(c >> 20) == Coef(d >> 20) && Coef(c >> 15) == Coef(d >> 15) && Coef(c >> 10) == Coef(d >> 10)
    requires Coef(c >> 5) == Coef(d >> 5) && Coef(c) == Coef(d)
    ensures c == d
  {}

  const R1: Poly := Zeros(7) + [ONE]

  lemma VerifyIsRemainderOne(prefix: Bytes, payload: Poly)
    ensures VerifyChecksum(prefix, payload) <==> RemFrom(R1, Expand(prefix) + payload) == R1
  {
    var v := Expand(prefix) + payload;
    XorStart(Feed(START, v));
    FeedRefines(START, v);
    UnpackStart();
    if Unpack(Feed(START, v)) == Unpack(START) { UnpackInjective(Feed(START, v), START); }
  }

  /** Of all eight-symbol endings exactly one verifies: the created checksum. */
  lemma ChecksumUnique(prefix: Bytes, payload: Poly, cs: Poly)
    requires |cs| == 8
    ensures VerifyChecksum(prefix, payload + cs) <==> cs == Checksum(prefix, payload)
  {
    var v := Expand(prefix) + payload;
    var zs := RemFrom(R1, v + Zeros(8));
    VerifyIsRemainderOne(prefix, payload + cs);
    assert Expand(prefix) + (payload + cs) == v + cs;
    RemFromAppend(R1, v, cs);
    RemFromAppend(R1, v, Zeros(8));
    WindowAdds(RemFrom(R1, v), cs);
    assert Pad(cs) == cs;
    FeedRefines(START, v + Zeros(8));
    UnpackStart();
    UnpackXor(Feed(START, v + Zeros(8)), START);
    AddCancel(zs, cs);
    AddCancel(zs, R1);
  }

  /** Two different symbol strings of one length that agree outside a window of eight
      consecutive places never both verify under one prefix. */
  lemma BurstDetected(prefix: Bytes, u: Poly, v: Poly, k: nat)
    requires |u| == |v| && u != v
    requires forall i :: 0 <= i < |u| && (i < k || i >= k + 8) ==> u[i] == v[i]
    ensures !(VerifyChecksum(prefix, u) && VerifyChecksum(prefix, v))
  {
    var n, e := |u|, Expand(prefix);
    var lo, hi := if k <= n then k else n, if k + 8 <= n then k + 8 else n;
    assert u[..lo] == v[..lo] && u[hi..] == v[hi..];
    ThreeParts(e, u, lo, hi);
    ThreeParts(e, v, lo, hi);
    WindowDiffers(e + u[..lo], u[lo..hi], v[lo..hi], u[hi..]);
    VerifyIsRemainderOne(prefix, u);
    VerifyIsRemainderOne(prefix, v);
  }

  /** Nor does one symbol string verify under two prefixes whose low five bits differ only within eight characters. */
  lemma PrefixBurstDetected(p: Bytes, q: Bytes, u: Poly, k: nat)
    requires |p| == |q| && exists i :: 0 <= i < |p| && p[i] as int % 32 != q[i] as int % 32
    requires forall i :: 0 <= i < |p| && (i < k || i >= k + 8) ==> p[i] as int % 32 == q[i] as int % 32
    ensures !(VerifyChecksum(p, u) && VerifyChecksum(q, u))
  {
    hide Expand;
    var n, e, f := |p|, Expand(p), Expand(q);
    var lo, hi := if k <= n then k else n, if k + 8 <= n then k + 8 else n;
    ExpandDiffers(p, q, lo, hi);
    assert e + u == e[..lo] + e[lo..hi] + (e[hi..] + u);
    assert f + u == f[..lo] + f[lo..hi] + (f[hi..] + u);
    WindowDiffers(e[..lo], e[lo..hi], f[lo..hi], e[hi..] + u);
    VerifyIsRemainderOne(p, u);
    VerifyIsRemainderOne(q, u);
  }

  lemma ExpandDiffers(p: Bytes, q: Bytes, lo: nat, hi: nat)
    requires |p| == |q| && lo <= hi <= |p| && exists i :: 0 <= i < |p| && p[i] as int % 32 != q[i] as int % 32
    requires forall i :: 0 <= i < |p| && (i < lo || i >= hi) ==> p[i] as int % 32 == q[i] as int % 32
    ensures var e, f := Expand(p), Expand(q);
      && |e| == |f| == |p| + 1 && e[..lo] == f[..lo] && e[hi..] == f[hi..] && e[lo..hi] != f[lo..hi]
  {
    hide LowBits;
    var e, f := Expand(p), Expand(q);
    forall i | 0 <= i < |p| ensures e[i] == f[i] <==> p[i] as int % 32 == q[i] as int % 32 {
      LowBitsExact(p[i], q[i]);
    }
    var i :| 0 <= i < |p| && p[i] as int % 32 != q[i] as int % 32;
    assert e[lo..hi][i - lo] != f[lo..hi][i - lo];
  }

  lemma LowBitsExact(c: byte, d: byte)
    ensures LowBits(c) == LowBits(d) <==> c as int % 32 == d as int % 32
  {
    var m, n := c as int % 32, d as int % 32;
    assert (m as bv5) as int == m && (n as bv5) as int == n;
  }

  lemma ThreeParts(e: Poly, u: Poly, lo: nat, hi: nat)
    requires lo <= hi <= |u|
    ensures e + u == (e + u[..lo]) + u[lo..hi] + u[hi..]
    ensures u == u[..lo] + u[lo..hi] + u[hi..]
  {}

  lemma WindowDiffers(head: Poly, w: Poly, x: Poly, tail: Poly)
    requires |w| == |x| <= 8 && w != x
    ensures RemFrom(R1, head + w + tail) != RemFrom(R1, head + x + tail)
  {
    var r, z := RemFrom(R1, head), RemFrom(RemFrom(R1, head), Zeros(|w|));
    RemFromAppend(R1, head + w, tail);
    RemFromAppend(R1, head + x, tail);
    RemFromAppend(R1, head, w);
    RemFromAppend(R1, head, x);
    WindowAdds(r, w);
    WindowAdds(r, x);
    AddCancel(z, Pad(w));
    AddCancel(z, Pad(x));
    assert Pad(w)[8 - |w|..] == w && Pad(x)[8 - |w|..] == x;
    if RemFrom(R1, head + w + tail) == RemFrom(R1, head + x + tail) {
      RemFromInjective(RemFrom(R1, head + w), RemFrom(R1, head + x), tail);
    }
  }

  // ---- strings ----

  predicate IsAlnum(c: byte) { IsLower(c) || IsUpper(c) || IsDigit(c) }

  /** What the first loop lets through: letters and digits, and at most one colon that is not
      first and has no digit before it. */
  ghost predicate Clean(s: Bytes) {
    forall i :: 0 <= i < |s| ==> IsAlnum(s[i]) || Separator(s, i)
  }

  ghost predicate Separator(s: Bytes, i: nat)
    requires i < |s|
  {
    s[i] == COLON && i > 0 && forall j :: 0 <= j < i ==> s[j] != COLON && !IsDigit(s[j])
  }

  ghost predicate Mixed(s: Bytes) {
    (exists i :: 0 <= i < |s| && IsLower(s[i])) && (exists i :: 0 <= i < |s| && IsUpper(s[i]))
  }

  /** Where the first colon after the first character is; 0 when there is none. */
  function ColonAt(s: Bytes): (k: nat)
    ensures k > 0 ==> k < |s| && s[k] == COLON
    ensures forall j :: 0 < j < |s| && s[j] == COLON ==> 0 < k <= j
  {
    if s == [] then 0 else FirstColon(s, 1)
  }

  function FirstColon(s: Bytes, i: nat): (k: nat)
    requires 0 < i <= |s|
    ensures k > 0 ==> i <= k < |s| && s[k] == COLON
    ensures forall j :: i <= j < |s| && s[j] == COLON ==> 0 < k <= j
    decreases |s| - i
  {
    if i == |s| then 0 else if s[i] == COLON then i else FirstColon(s, i + 1)
  }

  ghost predicate Readable(s: Bytes) {
    forall i :: 0 <= i < |s| ==> CharsetRev(s[i]).Some?
  }

  ghost function Read(s: Bytes): (p: Poly)
    requires Readable(s)
    ensures |p| == |s|
  {
    seq(|s|, i requires 0 <= i < |s| => CharsetRev(s[i]).value)
  }

  /** The answer of Decode; the empty pair is a rejection. */
  ghost function Decoded(s: Bytes, defaultPrefix: Bytes): (Bytes, Poly) {
    var k := ColonAt(s);
    var prefix := if k == 0 then defaultPrefix else LowerAll(s[..k]);
    var body := if k == 0 then s else s[k + 1..];
    if Clean(s) && !Mixed(s) && Readable(body) && VerifyChecksum(prefix, Read(body))
    then (prefix, Read(body)) else ([], [])
  }

  lemma CharsetChars(s: Symbol)
    ensures IsLower(Charset(s)) || IsDigit(Charset(s))
  {}

  lemma CharsetInverse(s: Symbol)
    ensures CharsetRev(Charset(s)) == Some(s)
  {
    if s.bits < 8 { Inverse0(s.bits); } else if s.bits < 16 { Inverse1(s.bits); }
    else if s.bits < 24 { Inverse2(s.bits); } else { Inverse3(s.bits); }
  }

  lemma Inverse0(b: bv5) requires b < 8 ensures CharsetRev(Charset0(b)) == Some(Symbol(b)) {}
  lemma Inverse1(b: bv5) requires 8 <= b < 16 ensures CharsetRev(Charset1(b)) == Some(Symbol(b)) {}
  lemma Inverse2(b: bv5) requires 16 <= b < 24 ensures CharsetRev(Charset2(b)) == Some(Symbol(b)) {}
  lemma Inverse3(b: bv5) requires 24 <= b ensures CharsetRev(Charset3(b)) == Some(Symbol(b)) {}

  lemma LetterInverse(k: int)
    requires 0 <= k < 26 && LetterRev(k).Some?
    ensures Charset(LetterRev(k).value) as int == 97 + k
  {}

  lemma DigitInverse(k: int)
    requires 0 <= k < 10 && DigitRev(k).Some?
    ensures Charset(DigitRev(k).value) as int == 48 + k
  {}

  lemma CharsetRevCase(c: byte)
    ensures (c == COLON || IsDigit(c) || IsLower(c) ==> LowerCase(c) == c)
    ensures IsUpper(c) ==> IsLower(LowerCase(c)) && CharsetRev(LowerCase(c)) == CharsetRev(c)
  {}

  lemma CharsetRevInverse(c: byte)
    requires CharsetRev(c).Some?
    ensures Charset(CharsetRev(c).value) == LowerCase(c)
  {
    CharsetRevCase(c);
    if IsDigit(c) { DigitInverse(c as int - 48); }
    else if IsUpper(c) { LetterInverse(c as int - 65); }
    else { LetterInverse(c as int - 97); }
  }

  ghost predicate LowerLetters(s: Bytes) {
    forall i :: 0 <= i < |s| ==> IsLower(s[i])
  }

  lemma SpellRead(s: Bytes)
    requires Readable(s)
    ensures Spell(Read(s)) == LowerAll(s)
  {
    forall i | 0 <= i < |s| ensures Charset(Read(s)[i]) == LowerCase(s[i]) { CharsetRevInverse(s[i]); }
  }

  lemma ReadSpell(s: Bytes, p: Poly)
    requires LowerAll(s) == Spell(p) && forall i :: 0 <= i < |s| ==> IsAlnum(s[i])
    ensures Readable(s) && Read(s) == p
  {
    forall i | 0 <= i < |s| ensures CharsetRev(s[i]) == Some(p[i]) {
      assert LowerAll(s)[i] == Spell(p)[i];
      CharsetInverse(p[i]);
      CharsetRevCase(s[i]);
    }
  }

  lemma LowerAllSplit(s: Bytes, k: nat)
    requires k < |s|
    ensures LowerAll(s) == LowerAll(s[..k]) + [LowerCase(s[k])] + LowerAll(s[k + 1..])
  {}

  /** Decoding any one-case spelling of an encoding gives back the prefix and the payload
      followed by its checksum. */
  lemma DecodeEncode(prefix: Bytes, payload: Poly, s: Bytes, defaultPrefix: Bytes)
    requires prefix != [] && LowerLetters(prefix)
    requires LowerAll(s) == Encoded(prefix, payload) && !Mixed(s)
    requires forall i :: 0 <= i < |s| ==> IsAlnum(s[i]) || s[i] == COLON
    ensures Decoded(s, defaultPrefix) == (prefix, payload + Checksum(prefix, payload))
  {
    var n, all := |prefix|, payload + Checksum(prefix, payload);
    assert |s| == n + 1 + |all|;
    LowerAllSplit(s, n);
    assert LowerAll(s)[..n] == LowerAll(s[..n]) && LowerAll(s)[n] == LowerCase(s[n]);
    assert LowerAll(s)[n + 1..] == LowerAll(s[n + 1..]);
    var e := Encoded(prefix, payload);
    assert e[..n] == prefix && e[n] == COLON && e[n + 1..] == Spell(all);
    ColonPlace(s, prefix, all);
    ReadSpell(s[n + 1..], all);
    ChecksumUnique(prefix, payload, Checksum(prefix, payload));
  }

  function UpperCase(c: byte): byte {
    if IsLower(c) then c - 32 else c
  }

  function UpperAll(s: Bytes): (t: Bytes)
    ensures |t| == |s|
  {
    seq(|s|, i requires 0 <= i < |s| => UpperCase(s[i]))
  }

  /** An encoding has lower-case letters, digits and a colon. */
  lemma EncodedChars(prefix: Bytes, payload: Poly, i: nat)
    requires LowerLetters(prefix) && i < |Encoded(prefix, payload)|
    ensures var c := Encoded(prefix, payload)[i]; IsLower(c) || IsDigit(c) || c == COLON
  {
    hide Charset, Checksum;
    var all := payload + Checksum(prefix, payload);
    if i > |prefix| {
      CharsetChars(all[i - |prefix| - 1]);
    }
  }

  lemma CaseChars(c: byte)
    requires IsLower(c) || IsDigit(c) || c == COLON
    ensures LowerCase(c) == c && LowerCase(UpperCase(c)) == c && !IsUpper(c) && !IsLower(UpperCase(c))
    ensures IsAlnum(UpperCase(c)) || UpperCase(c) == COLON
  {}

  lemma DecodeEncoded(prefix: Bytes, payload: Poly, defaultPrefix: Bytes)
    requires prefix != [] && LowerLetters(prefix)
    ensures Decoded(Encoded(prefix, payload), defaultPrefix) == (prefix, payload + Checksum(prefix, payload))
  {
    hide Encoded, Decoded, Charset, Checksum, LowerCase;
    var s := Encoded(prefix, payload);
    forall i | 0 <= i < |s| ensures LowerCase(s[i]) == s[i] && !IsUpper(s[i]) && (IsAlnum(s[i]) || s[i] == COLON) {
      EncodedChars(prefix, payload, i);
      CaseChars(s[i]);
    }
    assert LowerAll(s) == s;
    DecodeEncode(prefix, payload, s, defaultPrefix);
  }

  lemma DecodeUpper(prefix: Bytes, payload: Poly, defaultPrefix: Bytes)
    requires prefix != [] && LowerLetters(prefix)
    ensures Decoded(UpperAll(Encoded(prefix, payload)), defaultPrefix) == (prefix, payload + Checksum(prefix, payload))
  {
    hide Encoded, Decoded, Charset, Checksum, LowerCase, UpperCase;
    var e := Encoded(prefix, payload);
    var s := UpperAll(e);
    forall i | 0 <= i < |s| ensures LowerCase(s[i]) == e[i] && !IsLower(s[i]) && (IsAlnum(s[i]) || s[i] == COLON) {
      EncodedChars(prefix, payload, i);
      CaseChars(e[i]);
    }
    assert LowerAll(s) == e;
    DecodeEncode(prefix, payload, s, defaultPrefix);
  }

  lemma ColonPlace(s: Bytes, prefix: Bytes, all: Poly)
    requires 0 < |prefix| < |s| && LowerLetters(prefix)
    requires LowerAll(s[..|prefix|]) == prefix && LowerCase(s[|prefix|]) == COLON
    requires LowerAll(s[|prefix| + 1..]) == Spell(all)
    requires forall i :: 0 <= i < |s| ==> IsAlnum(s[i]) || s[i] == COLON
    ensures Clean(s) && ColonAt(s) == |prefix|
    ensures forall i :: |prefix| < i < |s| ==> IsAlnum(s[i])
  {
    var n := |prefix|;
    forall i | 0 <= i < |s| && i != n ensures s[i] != COLON && (i < n ==> !IsDigit(s[i])) {
      CharsetRevCase(s[i]);
      if i < n {
        assert LowerAll(s[..n])[i] == prefix[i];
      } else {
        assert LowerAll(s[n + 1..])[i - n - 1] == Spell(all)[i - n - 1];
        CharsetChars(all[i - n - 1]);
      }
    }
    CharsetRevCase(s[n]);
    assert s[n] == COLON;
    assert Separator(s, n);
  }

  ghost predicate Accepted(s: Bytes, defaultPrefix: Bytes) {
    Decoded(s, defaultPrefix) != ([], [])
  }

  /** Every accepted string with an explicit prefix and at least eight symbols re-encodes to
      its own lower-case form. */
  lemma EncodeDecode(s: Bytes, defaultPrefix: Bytes)
    requires ColonAt(s) > 0 && Accepted(s, defaultPrefix) && |Decoded(s, defaultPrefix).1| >= 8
    ensures var (prefix, all) := Decoded(s, defaultPrefix);
            prefix != [] && LowerLetters(prefix) && LowerAll(s) == Encoded(prefix, all[..|all| - 8])
  {
    var k := ColonAt(s);
    var (prefix, all) := Decoded(s, defaultPrefix);
    var n := |all| - 8;
    assert all == all[..n] + all[n..];
    ChecksumUnique(prefix, all[..n], all[n..]);
    LowerAllSplit(s, k);
    SpellRead(s[k + 1..]);
    CharsetRevCase(s[k]);
    PrefixLetters(s, k);
  }

  lemma PrefixLetters(s: Bytes, k: nat)
    requires Clean(s) && 0 < k == ColonAt(s)
    ensures LowerLetters(LowerAll(s[..k]))
  {
    assert Separator(s, k);
    forall i | 0 <= i < k ensures IsLower(LowerCase(s[i])) {
      assert IsAlnum(s[i]);
      CharsetRevCase(s[i]);
    }
  }

  // ---- the source's loops ----

  method ExpandPrefix(prefix: Bytes) returns (ret: Poly)
    ensures ret == Expand(prefix)
  {
    ret := [];
    for i := 0 to |prefix|
      invariant ret == Expand(prefix)[..i]
    {
      ret := ret + [LowBits(prefix[i])];
    }
    ret := ret + [ZERO];
  }

  method CreateChecksum(prefix: Bytes, payload: Poly) returns (ret: Poly)
    ensures ret == Checksum(prefix, payload)
  {
    var enc := ExpandPrefix(prefix);
    var mod := PolyMod(enc + payload + Zeros(8));
    ret := Unpack(mod);
  }

  method Encode(prefix: Bytes, payload: Poly) returns (ret: Bytes)
    ensures ret == Encoded(prefix, payload)
  {
    var checksum := CreateChecksum(prefix, payload);
    var combined := payload + checksum;
    ret := prefix + [COLON];
    for i := 0 to |combined|
      invariant ret == prefix + [COLON] + Spell(combined)[..i]
    {
      ret := ret + [Charset(combined[i])];
    }
    assert Spell(combined)[..|combined|] == Spell(combined);
  }

  /** The sanity loop of Decode: flags and the place of the ':'. */
  method Scan(str: Bytes) returns (ok: bool, prefixSize: nat)
    ensures ok <==> Clean(str) && !Mixed(str)
    ensures ok ==> prefixSize == ColonAt(str)
  {
    var lower, upper, hasNumber := false, false, false;
    prefixSize := 0;
    for i := 0 to |str|
      invariant forall j :: 0 <= j < i ==> IsAlnum(str[j]) || Separator(str, j)
      invariant lower <==> exists j :: 0 <= j < i && IsLower(str[j])
      invariant upper <==> exists j :: 0 <= j < i && IsUpper(str[j])
      invariant hasNumber <==> exists j :: 0 <= j < i && IsDigit(str[j])
      invariant prefixSize == 0 ==> forall j :: 0 <= j < i ==> str[j] != COLON
      invariant prefixSize > 0 ==> prefixSize < i && str[prefixSize] == COLON
      invariant prefixSize > 0 ==> forall j :: 0 <= j < prefixSize ==> str[j] != COLON
    {
      var c := str[i];
      if IsLower(c) { lower := true; continue; }
      if IsUpper(c) { upper := true; continue; }
      if IsDigit(c) { hasNumber := true; continue; }
      if c == COLON {
        if hasNumber || i == 0 || prefixSize != 0 { assert !Separator(str, i); return false, 0; }
        prefixSize := i;
        continue;
      }
      return false, 0;
    }
    ok := !(upper && lower);
  }

  /** The value loop of Decode. */
  method ReadValues(s: Bytes) returns (r: Option<Poly>)
    ensures r.Some? <==> Readable(s)
    ensures r.Some? ==> r.value == Read(s)
  {
    var values: Poly := [];
    for i := 0 to |s|
      invariant Readable(s[..i]) && values == Read(s[..i])
    {
      assert s[..i + 1] == s[..i] + [s[i]];
      var v := CharsetRev(s[i]);
      if v.None? { return None; }
      values := values + [v.value];
    }
    assert s[..|s|] == s;
    r := Some(values);
  }

  method LowerPrefix(s: Bytes) returns (prefix: Bytes)
    ensures prefix == LowerAll(s)
  {
    prefix := [];
    for i := 0 to |s|
      invariant prefix == LowerAll(s)[..i]
    {
      prefix := prefix + [LowerCase(s[i])];
    }
  }

  method Decode(str: Bytes, defaultPrefix: Bytes) returns (prefix: Bytes, values: Poly)
    ensures (prefix, values) == Decoded(str, defaultPrefix)
  {
    var ok, prefixSize := Scan(str);
    if !ok { return [], []; }
    prefix := defaultPrefix;
    var body := str;
    if prefixSize != 0 {
      prefix := LowerPrefix(str[..prefixSize]);
      body := str[prefixSize + 1..];
    }
    var v := ReadValues(body);
    if v.None? { return [], []; }
    values := v.value;
    var enc := ExpandPrefix(prefix);
    var mod := PolyMod(enc + values);
    if mod != Word(0) { return [], []; }
  }
}
