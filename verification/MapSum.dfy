/** Finite sums over the values of a map: what the ledgers below are measured with. */
module MapSum {
  ghost function Sum<K, V>(m: map<K, V>, f: (K, V) -> int): int
    decreases |m|
  {
    if |m| == 0 then 0 else
      var k :| k in m;
      Shrinks(m, k);
      f(k, m[k]) + Sum(m - {k}, f)
  }

  lemma Shrinks<K, V>(m: map<K, V>, k: K)
    requires k in m
    ensures |m - {k}| == |m| - 1
  {
    assert (m - {k}).Keys == m.Keys - {k};
    assert |(m - {k}).Keys| == |m.Keys| - 1;
  }

  lemma FirstTaken<K, V>(m: map<K, V>, f: (K, V) -> int) returns (k: K)
    requires |m| > 0
    ensures k in m && |m - {k}| == |m| - 1 && Sum(m, f) == f(k, m[k]) + Sum(m - {k}, f)
  {
    k :| k in m && Sum(m, f) == f(k, m[k]) + Sum(m - {k}, f);
    Shrinks(m, k);
  }

  /** The sum does not depend on which key is taken out first. */
  lemma {:induction false} SumRemove<K, V>(m: map<K, V>, f: (K, V) -> int, k: K)
    requires k in m
    ensures Sum(m, f) == f(k, m[k]) + Sum(m - {k}, f)
    decreases |m|
  {
    hide *;
    Shrinks(m, k);
    var j := FirstTaken(m, f);
    if j != k {
      SumRemove(m - {j}, f, k);
      SumRemove(m - {k}, f, j);
      assert m - {j} - {k} == m - {k} - {j};
    }
  }

  lemma SumInsert<K, V>(m: map<K, V>, f: (K, V) -> int, k: K, v: V)
    requires k !in m
    ensures Sum(m[k := v], f) == Sum(m, f) + f(k, v)
  {
    SumRemove(m[k := v], f, k);
    assert m[k := v] - {k} == m;
  }

  lemma SumUpdate<K, V>(m: map<K, V>, f: (K, V) -> int, k: K, v: V)
    requires k in m
    ensures Sum(m[k := v], f) == Sum(m, f) - f(k, m[k]) + f(k, v)
  {
    SumRemove(m, f, k);
    SumRemove(m[k := v], f, k);
    assert m[k := v] - {k} == m - {k};
  }

  lemma {:induction false} SumNonNegative<K, V>(m: map<K, V>, f: (K, V) -> int)
    requires forall k <- m :: f(k, m[k]) >= 0
    ensures Sum(m, f) >= 0
    decreases |m|
  {
    if |m| > 0 {
      var k := FirstTaken(m, f);
      SumNonNegative(m - {k}, f);
    }
  }

  /** One term never exceeds a sum of non-negative terms. */
  lemma SumAtLeast<K, V>(m: map<K, V>, f: (K, V) -> int, k: K)
    requires k in m && forall j <- m :: f(j, m[j]) >= 0
    ensures Sum(m, f) >= f(k, m[k])
  {
    SumRemove(m, f, k);
    SumNonNegative(m - {k}, f);
  }

  lemma {:induction false} SumZero<K, V>(m: map<K, V>, f: (K, V) -> int)
    requires forall k <- m :: f(k, m[k]) == 0
    ensures Sum(m, f) == 0
    decreases |m|
  {
    if |m| > 0 {
      var k := FirstTaken(m, f);
      SumZero(m - {k}, f);
    }
  }

  lemma {:induction false} SumSame<K, V>(m: map<K, V>, m': map<K, V>, f: (K, V) -> int)
    requires m'.Keys == m.Keys && forall k <- m :: f(k, m'[k]) == f(k, m[k])
    ensures Sum(m', f) == Sum(m, f)
    decreases |m|
  {
    hide Sum;
    if |m| > 0 {
      var k := FirstTaken(m, f);
      SumRemove(m', f, k);
      assert (m' - {k}).Keys == (m - {k}).Keys;
      SumSame(m - {k}, m' - {k}, f);
    } else {
      assert m == map[] && m' == map[];
    }
  }

  /** A map rewritten in many places whose terms change at one key only. */
  lemma SumChanges<K, V>(m: map<K, V>, m': map<K, V>, f: (K, V) -> int, k: K)
    requires m'.Keys == m.Keys && k in m && forall j <- m :: j != k ==> f(j, m'[j]) == f(j, m[j])
    ensures Sum(m', f) == Sum(m, f) - f(k, m[k]) + f(k, m'[k])
  {
    SumRemove(m, f, k);
    SumRemove(m', f, k);
    assert (m' - {k}).Keys == (m - {k}).Keys;
    SumSame(m - {k}, m' - {k}, f);
  }

  function Get<K>(m: map<K, int>, k: K): int {
    if k in m then m[k] else 0
  }

  /** A counter that is created on first use and left alone by a zero change. */
  function Adjust<K(!new)>(m: map<K, int>, k: K, n: int): (r: map<K, int>)
    ensures forall j :: Get(r, j) == Get(m, j) + (if j == k then n else 0)
  {
    if n == 0 then m else m[k := Get(m, k) + n]
  }

  lemma SumAdjust<K(!new)>(m: map<K, int>, f: (K, int) -> int, k: K, n: int, counted: bool)
    requires forall v :: f(k, v) == if counted then v else 0
    ensures Sum(Adjust(m, k, n), f) == Sum(m, f) + if counted then n else 0
  {
    hide Sum;
    if n != 0 {
      if k in m {
        SumUpdate(m, f, k, m[k] + n);
      } else {
        SumInsert(m, f, k, n);
      }
    }
  }
}
