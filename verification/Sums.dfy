/** Finite sums over maps: the total size of the files on a disk. */
module Sums {
  import opened Prelude

  ghost function TotalSize<K>(m: map<K, Bytes>): nat
    decreases |m|
  {
    if m == map[] then 0
    else
      var k :| k in m;
      assert |(m - {k}).Keys| == |m.Keys - {k}| by { assert (m - {k}).Keys == m.Keys - {k}; }
      |m[k]| + TotalSize(m - {k})
  }

  /** Any key can be taken out first: the sum does not depend on the order of enumeration. */
  lemma {:induction false} TotalSizeSplit<K>(m: map<K, Bytes>, k: K)
    requires k in m
    ensures TotalSize(m) == |m[k]| + TotalSize(m - {k})
    ensures |m - {k}| == |m| - 1
    decreases |m|
  {
    assert (m - {k}).Keys == m.Keys - {k};
    var j :| j in m && TotalSize(m) == |m[j]| + TotalSize(m - {j});
    assert (m - {j}).Keys == m.Keys - {j};
    if j != k {
      TotalSizeSplit(m - {j}, k);
      assert (m - {k}).Keys == m.Keys - {k};
      TotalSizeSplit(m - {k}, j);
      assert m - {j} - {k} == m - {k} - {j};
    }
  }

  /** Storing under a fresh key adds exactly the new value. */
  lemma TotalSizeInsert<K>(m: map<K, Bytes>, k: K, v: Bytes)
    requires k !in m
    ensures TotalSize(m[k := v]) == TotalSize(m) + |v|
    ensures |m[k := v]| == |m| + 1
  {
    TotalSizeSplit(m[k := v], k);
    assert m[k := v] - {k} == m;
  }

  /** Overwriting a key exchanges the old value for the new one. */
  lemma TotalSizeReplace<K>(m: map<K, Bytes>, k: K, v: Bytes)
    requires k in m
    ensures TotalSize(m[k := v]) == TotalSize(m) - |m[k]| + |v|
    ensures |m[k := v]| == |m|
  {
    TotalSizeSplit(m, k);
    TotalSizeSplit(m[k := v], k);
    assert m[k := v] - {k} == m - {k};
  }
}
