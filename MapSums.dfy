/** The sum of the values of a map, the meaning of `Object.values(m).reduce((s, v) => s + v, 0)`.
    Integer addition is commutative, so the sum does not depend on the order keys are visited in. */
module MapSums {

  /** The value at `k`, or 0 when `k` is absent. */
  function ValueOr0<K>(m: map<K, int>, k: K): int {
    if k in m then m[k] else 0
  }

  ghost function Sum<K>(m: map<K, int>): int
    decreases |m|
  {
    if m == map[] then 0
    else
      var k :| k in m;
      m[k] + Sum(m - {k})
  }

  /** Any key may be taken out first. */
  lemma {:induction false} SumRemove<K>(m: map<K, int>, k: K)
    requires k in m
    ensures Sum(m) == m[k] + Sum(m - {k})
    decreases |m|
  {
    var j :| j in m && Sum(m) == m[j] + Sum(m - {j});
    if j != k {
      SumRemove(m - {j}, k);
      SumRemove(m - {k}, j);
      assert m - {j} - {k} == m - {k} - {j};
    }
  }

  /** Overwriting (or adding) one key changes the sum by the difference. */
  lemma SumUpdate<K>(m: map<K, int>, k: K, v: int)
    ensures Sum(m[k := v]) == Sum(m) - ValueOr0(m, k) + v
  {
    SumRemove(m[k := v], k);
    assert m[k := v] - {k} == m - {k};
    if k in m {
      SumRemove(m, k);
    } else {
      assert m - {k} == m;
    }
  }

  /** When every value is at least 1, the sum is at least the number of keys. */
  lemma {:induction false} SumAtLeastSize<K>(m: map<K, int>)
    requires forall k :: k in m ==> m[k] >= 1
    ensures Sum(m) >= |m|
    decreases |m|
  {
    if m != map[] {
      var k :| k in m;
      SumRemove(m, k);
      SumAtLeastSize(m - {k});
    }
  }
}
