/** Sums over the values of finite maps.

    The classifier's invariants say that a category's word total is the sum of
    that category's per-word counts and that the number of training texts is the
    sum of the per-category text counts. Both sums range over the keys of a
    dictionary, so they are stated here once, for any finite map to naturals.
 */
module MapSums {

  /** The sum of all values of `m`. */
  ghost function Sum<K>(m: map<K, nat>): nat
    decreases |m|
  {
    if m == map[] then 0
    else
      var k :| k in m;
      assert |(m - {k}).Keys| == |m.Keys| - 1 by {
        assert (m - {k}).Keys == m.Keys - {k};
      }
      m[k] + Sum(m - {k})
  }

  /** Any key, not only the one `Sum` happens to pick, can be split off. */
  lemma {:induction false} SumRemove<K>(m: map<K, nat>, k: K)
    requires k in m
    ensures Sum(m) == m[k] + Sum(m - {k})
    decreases |m|
  {
    var j :| j in m && Sum(m) == m[j] + Sum(m - {j});
    if j != k {
      assert (m - {j}).Keys == m.Keys - {j};
      assert (m - {k}).Keys == m.Keys - {k};
      SumRemove(m - {j}, k);
      SumRemove(m - {k}, j);
      assert m - {j} - {k} == m - {k} - {j};
    }
  }

  /** Replacing (or adding) the value at one key changes the sum by exactly the
      difference at that key. */
  lemma SumUpdate<K>(m: map<K, nat>, k: K, v: nat)
    ensures Sum(m[k := v]) == Sum(m - {k}) + v
    ensures Sum(m) == (if k in m then m[k] else 0) + Sum(m - {k})
  {
    SumRemove(m[k := v], k);
    assert m[k := v] - {k} == m - {k};
    if k in m {
      SumRemove(m, k);
    } else {
      assert m - {k} == m;
    }
  }

  /** A single value never exceeds the sum. */
  lemma SumAtLeastTerm<K>(m: map<K, nat>, k: K)
    requires k in m
    ensures m[k] <= Sum(m)
  {
    SumRemove(m, k);
  }

  /** A map whose values are all zero sums to zero. */
  lemma {:induction false} SumOfZeros<K>(m: map<K, nat>)
    requires forall k :: k in m ==> m[k] == 0
    ensures Sum(m) == 0
    decreases |m|
  {
    if m != map[] {
      var k :| k in m;
      SumRemove(m, k);
      assert (m - {k}).Keys == m.Keys - {k};
      SumOfZeros(m - {k});
    }
  }

  /** Adding one to every value adds the number of keys to the sum. */
  lemma {:induction false} SumShiftByOne<K>(m: map<K, nat>, m': map<K, nat>)
    requires m'.Keys == m.Keys
    requires forall k :: k in m ==> m'[k] == m[k] + 1
    ensures Sum(m') == Sum(m) + |m|
    decreases |m|
  {
    if m != map[] {
      var k :| k in m;
      SumRemove(m, k);
      SumRemove(m', k);
      assert (m - {k}).Keys == m.Keys - {k};
      assert (m' - {k}).Keys == m'.Keys - {k};
      SumShiftByOne(m - {k}, m' - {k});
    } else {
      assert m' == map[];
    }
  }
}
