/** Sums over finite maps, and the facts about them that value conservation rests on. */
module Sums {

  ghost function MapSum<K>(m: map<K, int>): int
  {
    if m == map[] then 0 else
    var k :| k in m;
    m[k] + MapSum(m - {k})
  }

  lemma {:induction false} MapSumRemove<K>(m: map<K, int>, k: K)
    requires k in m
    ensures MapSum(m) == m[k] + MapSum(m - {k})
  {
    var j :| j in m && MapSum(m) == m[j] + MapSum(m - {j});
    if j != k {
      MapSumRemove(m - {j}, k);
      MapSumRemove(m - {k}, j);
      assert m - {j} - {k} == m - {k} - {j};
    }
  }

  lemma MapSumUpdate<K>(m: map<K, int>, k: K, v: int)
    ensures MapSum(m[k := v]) == MapSum(m) - (if k in m then m[k] else 0) + v
  {
    MapSumRemove(m[k := v], k);
    assert m[k := v] - {k} == m - {k};
    if k in m {
      MapSumRemove(m, k);
    } else {
      assert m - {k} == m;
    }
  }

  lemma {:induction false} MapSumNonnegative<K>(m: map<K, int>)
    requires forall k :: k in m ==> 0 <= m[k]
    ensures 0 <= MapSum(m)
  {
    if m != map[] {
      var k :| k in m && MapSum(m) == m[k] + MapSum(m - {k});
      MapSumNonnegative(m - {k});
    }
  }

  /** A part never outweighs the whole when nothing is negative. */
  lemma MapSumBoundsEntry<K>(m: map<K, int>, k: K)
    requires forall j :: j in m ==> 0 <= m[j]
    requires k in m
    ensures m[k] <= MapSum(m)
  {
    MapSumRemove(m, k);
    MapSumNonnegative(m - {k});
  }

  /** Dropping the keys of a part leaves the difference of the sums. */
  lemma {:induction false} MapSumPart<K>(m: map<K, int>, ks: set<K>)
    requires ks <= m.Keys
    ensures MapSum(m) == MapSum(map k | k in ks :: m[k]) + MapSum(m - ks)
    decreases ks
  {
    var part := map k | k in ks :: m[k];
    if ks == {} {
      assert part == map[] && m - ks == m;
    } else {
      var k :| k in ks;
      var rest := ks - {k};
      MapSumPart(m, rest);
      MapSumRemove(part, k);
      assert part - {k} == map j | j in rest :: m[j];
      MapSumRemove(m - rest, k);
      assert m - rest - {k} == m - ks;
    }
  }

  lemma MapSumZeroIsEmpty<K>(m: map<K, int>)
    requires forall k :: k in m ==> 0 < m[k]
    requires MapSum(m) == 0
    ensures m == map[]
  {
    if m != map[] {
      var k :| k in m;
      MapSumBoundsEntry(m, k);
    }
  }

  lemma {:induction false} MapSumOfZeros<K>(m: map<K, int>)
    requires forall k :: k in m ==> m[k] == 0
    ensures MapSum(m) == 0
  {
    if m != map[] {
      var k :| k in m && MapSum(m) == m[k] + MapSum(m - {k});
      MapSumOfZeros(m - {k});
    }
  }
}
