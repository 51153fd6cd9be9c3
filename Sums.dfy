/**
 * The sum of the values of a finite map, for counts that the Java code
 * accumulates while iterating over the keys of a `HashMap` or a key set in
 * an order it does not control.
 */
module Sums {

  ghost function SumValues<K>(m: map<K, nat>): nat
    decreases |m|
  {
    if m.Keys == {} then 0
    else
      var k :| k in m.Keys;
      m[k] + SumValues(m - {k})
  }

  /** Any key can be taken out first: the sum does not depend on iteration order. */
  lemma {:induction false} SumValuesRemove<K>(m: map<K, nat>, k: K)
    requires k in m
    ensures SumValues(m) == m[k] + SumValues(m - {k})
    decreases |m|
  {
    var j :| j in m.Keys && SumValues(m) == m[j] + SumValues(m - {j});
    if j != k {
      var mj := m - {j};
      var mk := m - {k};
      assert |mj| < |m| && |mk| < |m|;
      SumValuesRemove(mj, k);
      SumValuesRemove(mk, j);
      assert mj - {k} == mk - {j};
    }
  }

  /** Adding a new key adds its value. */
  lemma SumValuesAdd<K>(m: map<K, nat>, k: K, v: nat)
    requires k !in m
    ensures SumValues(m[k := v]) == SumValues(m) + v
  {
    SumValuesRemove(m[k := v], k);
    assert m[k := v] - {k} == m;
  }

  /** Changing the value at an existing key changes the sum by the difference. */
  lemma SumValuesUpdate<K>(m: map<K, nat>, k: K, v: nat)
    requires k in m
    ensures SumValues(m[k := v]) + m[k] == SumValues(m) + v
  {
    SumValuesRemove(m[k := v], k);
    SumValuesRemove(m, k);
    assert m[k := v] - {k} == m - {k};
  }

  /** No single value exceeds the sum. */
  lemma SumValuesBound<K>(m: map<K, nat>, k: K)
    requires k in m
    ensures m[k] <= SumValues(m)
  {
    SumValuesRemove(m, k);
  }

  /** The empty map sums to zero. */
  lemma SumValuesEmpty<K>(m: map<K, nat>)
    requires m.Keys == {}
    ensures SumValues(m) == 0
  {
  }
}
