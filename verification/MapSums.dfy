/** Sums over the values of a finite map: token supply and bonds in custody are such sums. */
module MapSums {
  ghost function Sum<K(!new)>(m: map<K, int>): int
  {
    if m == map[] then 0
    else
      var k :| k in m;
      m[k] + Sum(m - {k})
  }

  /** The sum does not depend on the order in which keys are taken out. */
  lemma {:induction false} SumRemove<K(!new)>(m: map<K, int>, k: K)
    requires k in m
    ensures Sum(m) == m[k] + Sum(m - {k})
    decreases |m|
  {
    var first :| first in m && Sum(m) == m[first] + Sum(m - {first});
    if first != k {
      SumRemove(m - {first}, k);
      SumRemove(m - {k}, first);
      assert m - {first} - {k} == m - {k} - {first};
    }
  }

  lemma SumPut<K(!new)>(m: map<K, int>, k: K, v: int)
    ensures Sum(m[k := v]) == Sum(m) + v - (if k in m then m[k] else 0)
  {
    var m' := m[k := v];
    SumRemove(m', k);
    if k in m {
      SumRemove(m, k);
      assert m' - {k} == m - {k};
    } else {
      assert m' - {k} == m;
    }
  }

  lemma {:induction false} SumNonNegative<K(!new)>(m: map<K, int>)
    requires forall k :: k in m ==> m[k] >= 0
    ensures Sum(m) >= 0
    decreases |m|
  {
    if m != map[] {
      var k :| k in m && Sum(m) == m[k] + Sum(m - {k});
      SumNonNegative(m - {k});
    }
  }

  /** No single value exceeds the sum when every value is non-negative; nor do two distinct ones. */
  lemma SumBounds<K(!new)>(m: map<K, int>, a: K, b: K)
    requires forall k :: k in m ==> m[k] >= 0
    requires a in m && b in m
    ensures m[a] <= Sum(m)
    ensures a != b ==> m[a] + m[b] <= Sum(m)
  {
    SumRemove(m, a);
    SumNonNegative(m - {a});
    if a != b {
      SumRemove(m - {a}, b);
      SumNonNegative(m - {a} - {b});
    }
  }
}
