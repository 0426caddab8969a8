/** Sums over the values of a finite map, whatever order its keys are visited in. */
module Sums {

  ghost function Pick<K(!new)>(m: map<K, real>): (k: K)
    requires m.Keys != {}
    ensures k in m
  {
    var k :| k in m.Keys; k
  }

  ghost function MapSum<K(!new)>(m: map<K, real>): real
    decreases |m.Keys|
  {
    if m.Keys == {} then 0.0 else
    var k := Pick(m);
    assert (m - {k}).Keys == m.Keys - {k};
    m[k] + MapSum(m - {k})
  }

  lemma {:induction false} MapSumRemove<K(!new)>(m: map<K, real>, k: K)
    requires k in m
    ensures MapSum(m) == m[k] + MapSum(m - {k})
    decreases |m.Keys|
  {
    var j := Pick(m);
    if j != k {
      assert (m - {j}).Keys == m.Keys - {j} && (m - {k}).Keys == m.Keys - {k};
      MapSumRemove(m - {j}, k);
      MapSumRemove(m - {k}, j);
      assert (m - {j}) - {k} == (m - {k}) - {j};
    }
  }

  lemma MapSumUpdate<K(!new)>(m: map<K, real>, k: K, v: real)
    ensures MapSum(m[k := v]) == MapSum(m) - (if k in m then m[k] else 0.0) + v
  {
    MapSumRemove(m[k := v], k);
    assert m[k := v] - {k} == m - {k};
    if k in m { MapSumRemove(m, k); } else { assert m - {k} == m; }
  }
}
