/** Finite sums over the values of an integer-valued map, the aggregate behind balances and totals. */
module Sums {

  /** The sum of all values of `m`, taken in an unspecified key order. */
  ghost function Sum(m: map<nat, int>): int
    decreases |m.Keys|
  {
    if m == map[] then 0
    else
      var k :| k in m;
      m[k] + Sum(m - {k})
  }

  /** The sum does not depend on which key is taken out first. */
  lemma {:induction false} SumRemove(m: map<nat, int>, k: nat)
    requires k in m
    ensures Sum(m) == m[k] + Sum(m - {k})
    decreases |m.Keys|
  {
    var j :| j in m && Sum(m) == m[j] + Sum(m - {j});
    if j != k {
      assert (m - {j}) - {k} == (m - {k}) - {j};
      assert |(m - {j}).Keys| < |m.Keys| by {
        assert (m - {j}).Keys == m.Keys - {j};
      }
      assert |(m - {k}).Keys| < |m.Keys| by {
        assert (m - {k}).Keys == m.Keys - {k};
      }
      SumRemove(m - {j}, k);
      SumRemove(m - {k}, j);
    }
  }

  /** Replacing one value changes the sum by exactly the difference. */
  lemma SumUpdate(m: map<nat, int>, k: nat, v: int)
    requires k in m
    ensures Sum(m[k := v]) == Sum(m) - m[k] + v
  {
    SumRemove(m, k);
    SumRemove(m[k := v], k);
    assert m[k := v] - {k} == m - {k};
  }

  /** Adding a fresh key adds its value to the sum. */
  lemma SumInsert(m: map<nat, int>, k: nat, v: int)
    requires k !in m
    ensures Sum(m[k := v]) == Sum(m) + v
  {
    SumRemove(m[k := v], k);
    assert m[k := v] - {k} == m;
  }

  /** A map whose values are all zero sums to zero. */
  lemma SumZero(m: map<nat, int>)
    requires forall k :: k in m ==> m[k] == 0
    ensures Sum(m) == 0
    decreases |m.Keys|
  {
    if m != map[] {
      var k :| k in m;
      SumRemove(m, k);
      assert (m - {k}).Keys == m.Keys - {k};
      SumZero(m - {k});
    }
  }

  /** A sum of non-negative values is non-negative. */
  lemma {:induction false} SumNonNegative(m: map<nat, int>)
    requires forall k :: k in m ==> m[k] >= 0
    ensures Sum(m) >= 0
    decreases |m.Keys|
  {
    if m != map[] {
      var k :| k in m;
      SumRemove(m, k);
      assert (m - {k}).Keys == m.Keys - {k};
      SumNonNegative(m - {k});
    }
  }
}
