/** Sums over finite maps, for the conservation results. */
module MapSums {
  ghost function Total<K>(m: map<K, int>): int
    decreases |m|
  {
    if m == map[] then 0
    else
      var k :| k in m;
      m[k] + Total(m - {k})
  }

  lemma {:induction false} TotalRemove<K>(m: map<K, int>, k: K)
    requires k in m
    ensures Total(m) == m[k] + Total(m - {k})
    decreases |m|
  {
    var j :| j in m && Total(m) == m[j] + Total(m - {j});
    if j != k {
      TotalRemove(m - {j}, k);
      TotalRemove(m - {k}, j);
      assert m - {j} - {k} == m - {k} - {j};
    }
  }

  lemma TotalInsert<K>(m: map<K, int>, k: K, v: int)
    requires k !in m
    ensures Total(m[k := v]) == Total(m) + v
  {
    TotalRemove(m[k := v], k);
    assert m[k := v] - {k} == m;
  }

  lemma TotalUpdate<K>(m: map<K, int>, k: K, v: int)
    requires k in m
    ensures Total(m[k := v]) == Total(m) - m[k] + v
  {
    TotalRemove(m, k);
    TotalRemove(m[k := v], k);
    assert m[k := v] - {k} == m - {k};
  }

  /** Adding `v` at `k`, as `*map.entry(k).or_default() += v` does. */
  function AddAt<K>(m: map<K, int>, k: K, v: int): map<K, int> {
    m[k := (if k in m then m[k] else 0) + v]
  }

  lemma TotalAddAt<K>(m: map<K, int>, k: K, v: int)
    ensures Total(AddAt(m, k, v)) == Total(m) + v
  {
    if k in m { TotalUpdate(m, k, m[k] + v); } else { TotalInsert(m, k, v); }
  }
}
