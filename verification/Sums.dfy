/** Sums over finite maps, used to state that a running counter equals what the
    entries it counts imply. */
module Sums {

  ghost function Sum<K, V>(m: map<K, V>, f: V -> int): int
    decreases |m|
  {
    if m == map[] then 0
    else
      var k :| k in m;
      f(m[k]) + Sum(m - {k}, f)
  }

  lemma {:induction false} SumRemove<K, V>(m: map<K, V>, k: K, f: V -> int)
    requires k in m
    ensures Sum(m, f) == f(m[k]) + Sum(m - {k}, f)
    decreases |m|
  {
    var k0 :| k0 in m && Sum(m, f) == f(m[k0]) + Sum(m - {k0}, f);
    if k0 != k {
      SumRemove(m - {k0}, k, f);
      SumRemove(m - {k}, k0, f);
      assert m - {k0} - {k} == m - {k} - {k0};
    }
  }

  lemma SumAdd<K, V>(m: map<K, V>, k: K, v: V, f: V -> int)
    requires k !in m
    ensures Sum(m[k := v], f) == Sum(m, f) + f(v)
  {
    SumRemove(m[k := v], k, f);
    assert m[k := v] - {k} == m;
  }

  lemma SumUpdate<K, V>(m: map<K, V>, k: K, v: V, f: V -> int)
    requires k in m
    ensures Sum(m[k := v], f) == Sum(m, f) - f(m[k]) + f(v)
  {
    SumRemove(m, k, f);
    SumRemove(m[k := v], k, f);
    assert m[k := v] - {k} == m - {k};
  }

  lemma {:induction false} SumNonNegative<K, V>(m: map<K, V>, f: V -> int)
    requires forall k :: k in m ==> f(m[k]) >= 0
    ensures Sum(m, f) >= 0
    decreases |m|
  {
    if m != map[] {
      var k :| k in m && Sum(m, f) == f(m[k]) + Sum(m - {k}, f);
      SumNonNegative(m - {k}, f);
    }
  }

  /** What key `k` contributes. */
  function At<K, V>(m: map<K, V>, k: K, f: V -> int): int {
    if k in m then f(m[k]) else 0
  }

  /** Maps that agree but for `k` have sums that differ by what `k` contributes. */
  lemma {:induction false} SumApart<K, V>(m: map<K, V>, n: map<K, V>, k: K, f: V -> int)
    requires m - {k} == n - {k}
    ensures Sum(n, f) - At(n, k, f) == Sum(m, f) - At(m, k, f)
  {
    if k in m { SumRemove(m, k, f); } else { assert m - {k} == m; }
    if k in n { SumRemove(n, k, f); } else { assert n - {k} == n; }
  }

  lemma {:induction false} SumSame<K, V>(m: map<K, V>, n: map<K, V>, f: V -> int)
    requires m.Keys == n.Keys && forall k :: k in m ==> f(m[k]) == f(n[k])
    ensures Sum(m, f) == Sum(n, f)
    decreases |m|
  {
    if m == map[] {
      assert n == map[];
    } else {
      var k :| k in m && Sum(m, f) == f(m[k]) + Sum(m - {k}, f);
      SumRemove(n, k, f);
      SumSame(m - {k}, n - {k}, f);
    }
  }
}
