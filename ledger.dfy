/**
 Sums over finite maps, used to state the denormalised totals of the store: a
 post's helpful counter as the sum of every user's vote on it, and a user's
 reputation as the sum of the counters of the posts that user owns.
 */
module Ledger {

  ghost function Pick<K>(s: set<K>): (k: K)
    requires s != {}
    ensures k in s
  {
    var k :| k in s; k
  }

  /** The sum of the values of m. */
  ghost function Sum<K>(m: map<K, int>): int
    decreases |m.Keys|
  {
    if m.Keys == {} then 0
    else
      var k := Pick(m.Keys);
      assert (m - {k}).Keys == m.Keys - {k};
      m[k] + Sum(m - {k})
  }

  /** Any key, not only the one Sum happens to pick, can be taken out first. */
  lemma {:induction false} SumRemove<K>(m: map<K, int>, k: K)
    requires k in m
    ensures Sum(m) == m[k] + Sum(m - {k})
    decreases |m.Keys|
  {
    var j := Pick(m.Keys);
    if j != k {
      var mj, mk := m - {j}, m - {k};
      assert mj.Keys == m.Keys - {j} && mk.Keys == m.Keys - {k};
      assert Sum(m) == m[j] + Sum(mj);
      assert k in mj && mj[k] == m[k];
      assert j in mk && mk[j] == m[j];
      SumRemove(mj, k);
      SumRemove(mk, j);
      assert mj - {k} == mk - {j};
    }
  }

  /** Changing one value changes the sum by the difference. */
  lemma SumUpdate<K>(m: map<K, int>, k: K, x: int)
    requires k in m
    ensures Sum(m[k := x]) == Sum(m) - m[k] + x
  {
    SumRemove(m, k);
    SumRemove(m[k := x], k);
    assert m[k := x] - {k} == m - {k};
  }

  /** Adding a key adds its value to the sum. */
  lemma SumInsert<K>(m: map<K, int>, k: K, x: int)
    requires k !in m
    ensures Sum(m[k := x]) == Sum(m) + x
  {
    SumRemove(m[k := x], k);
    assert m[k := x] - {k} == m;
  }

  /** A map whose values are all zero sums to zero. */
  lemma {:induction false} SumZero<K>(m: map<K, int>)
    requires forall k :: k in m ==> m[k] == 0
    ensures Sum(m) == 0
    decreases |m.Keys|
  {
    if m.Keys != {} {
      var k := Pick(m.Keys);
      assert (m - {k}).Keys == m.Keys - {k};
      SumZero(m - {k});
    }
  }
}
