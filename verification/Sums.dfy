/** Sums over the entries of a map. */
module Sums {
  ghost function Sum<K, V>(m: map<K, V>, f: (K, V) -> int): int
    decreases |m|
  {
    if m == map[] then 0
    else
      var k :| k in m;
      f(k, m[k]) + Sum(m - {k}, f)
  }

  /** Any entry can be taken out first. */
  lemma {:induction false} SumWithout<K, V>(m: map<K, V>, f: (K, V) -> int, k: K)
    requires k in m
    ensures Sum(m, f) == f(k, m[k]) + Sum(m - {k}, f)
    decreases |m|
  {
    var first :| first in m && Sum(m, f) == f(first, m[first]) + Sum(m - {first}, f);
    if first != k {
      SumWithout(m - {first}, f, k);
      SumWithout(m - {k}, f, first);
      assert m - {first} - {k} == m - {k} - {first};
    }
  }

  lemma SumUpdate<K, V>(m: map<K, V>, f: (K, V) -> int, k: K, v: V)
    ensures Sum(m[k := v], f) == f(k, v) + Sum(m - {k}, f)
  {
    SumWithout(m[k := v], f, k);
    assert m[k := v] - {k} == m - {k};
  }

  /** What changing one entry does to the sum; a missing entry counts as nothing. */
  lemma SumChange<K, V>(m: map<K, V>, f: (K, V) -> int, k: K, v: V)
    ensures Sum(m[k := v], f) == Sum(m, f) + f(k, v) - if k in m then f(k, m[k]) else 0
  {
    SumUpdate(m, f, k, v);
    if k in m { SumWithout(m, f, k); } else { assert m - {k} == m; }
  }
}
