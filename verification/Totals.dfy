/** Sums over the entries of a map, for the measures of step systems with any number of goroutines. */
module Totals {
  ghost function Total<K, V>(m: map<K, V>, f: (K, V) -> nat): nat {
    if m == map[] then 0
    else
      var k :| k in m;
      f(k, m[k]) + Total(m - {k}, f)
  }

  lemma {:induction false} TotalWithout<K, V>(m: map<K, V>, f: (K, V) -> nat, k: K)
    requires k in m
    ensures Total(m, f) == f(k, m[k]) + Total(m - {k}, f)
  {
    var l :| l in m && Total(m, f) == f(l, m[l]) + Total(m - {l}, f);
    if l != k {
      TotalWithout(m - {l}, f, k);
      TotalWithout(m - {k}, f, l);
      assert m - {l} - {k} == m - {k} - {l};
    }
  }

  lemma TotalPut<K, V>(m: map<K, V>, f: (K, V) -> nat, k: K, v: V)
    ensures Total(m[k := v], f) == f(k, v) + Total(m - {k}, f)
    ensures k !in m ==> m - {k} == m
  {
    TotalWithout(m[k := v], f, k);
    assert m[k := v] - {k} == m - {k};
  }
}
