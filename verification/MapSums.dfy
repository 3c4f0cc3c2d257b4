/** Sums over the entries of a finite map, independent of the order in which the entries are visited. */
module MapSums {

  ghost function MapSum<K, V>(m: map<K, V>, f: (K, V) -> int): int
    decreases |m|
  {
    if m == map[] then 0
    else
      var k :| k in m;
      f(k, m[k]) + MapSum(m - {k}, f)
  }

  lemma {:induction false} MapSumExtract<K, V>(m: map<K, V>, f: (K, V) -> int, k: K)
    requires k in m
    ensures MapSum(m, f) == f(k, m[k]) + MapSum(m - {k}, f)
    decreases |m|
  {
    var k0 :| k0 in m && MapSum(m, f) == f(k0, m[k0]) + MapSum(m - {k0}, f);
    if k != k0 {
      MapSumExtract(m - {k0}, f, k);
      MapSumExtract(m - {k}, f, k0);
      assert m - {k0} - {k} == m - {k} - {k0};
    }
  }

  lemma MapSumPut<K, V>(m: map<K, V>, f: (K, V) -> int, k: K, v: V)
    ensures MapSum(m[k := v], f) == MapSum(m, f) + f(k, v) - (if k in m then f(k, m[k]) else 0)
  {
    MapSumExtract(m[k := v], f, k);
    if k in m {
      MapSumExtract(m, f, k);
      assert m[k := v] - {k} == m - {k};
    } else {
      assert m[k := v] - {k} == m;
    }
  }

  /** An entry never exceeds the sum when no entry is negative. */
  lemma {:induction false} MapSumBound<K, V>(m: map<K, V>, f: (K, V) -> int)
    requires forall k :: k in m ==> f(k, m[k]) >= 0
    ensures MapSum(m, f) >= 0
    ensures forall k :: k in m ==> f(k, m[k]) <= MapSum(m, f)
    decreases |m|
  {
    forall k | k in m
      ensures f(k, m[k]) <= MapSum(m, f)
    {
      MapSumExtract(m, f, k);
      MapSumBound(m - {k}, f);
    }
    if m != map[] {
      var k :| k in m;
      assert f(k, m[k]) <= MapSum(m, f);
    }
  }

  /** `keys` lists every key of `m` exactly once: one order in which a store iterator may visit `m`. */
  ghost predicate Enumerates<K, V>(keys: seq<K>, m: map<K, V>) {
    && m.Keys == (set k | k in keys)
    && (forall i, j :: 0 <= i < j < |keys| ==> keys[i] != keys[j])
  }

  lemma EnumeratesTail<K, V>(keys: seq<K>, m: map<K, V>)
    requires Enumerates(keys, m) && keys != []
    ensures Enumerates(keys[1..], m - {keys[0]})
  {
    forall k
      ensures k in m - {keys[0]} <==> k in keys[1..]
    {
      assert keys == [keys[0]] + keys[1..];
      if k in keys[1..] {
        var i :| 0 <= i < |keys[1..]| && keys[1..][i] == k;
        assert k == keys[i + 1];
      }
    }
  }
}
