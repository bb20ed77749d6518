// Declarations every part of the model uses.

module Basics {
  const U64_MAX: nat := 0xFFFF_FFFF_FFFF_FFFF
  const TWO64: int := 0x1_0000_0000_0000_0000

  type Byte = x: int | 0 <= x < 256

  datatype Option<+T> = None | Some(value: T)

  lemma MapAdded<K, V>(m: map<K, V>, k: K, v: V)
    requires k !in m
    ensures |m[k := v]| == |m| + 1 && m[k := v] - {k} == m
  {
    assert m[k := v].Keys == m.Keys + {k};
    assert |m[k := v]| == |m[k := v].Keys| && |m| == |m.Keys|;
    assert m[k := v] - {k} == m;
  }

  lemma MapRemoved<K, V>(m: map<K, V>, k: K)
    requires k in m
    ensures |m - {k}| == |m| - 1
  {
    assert (m - {k}).Keys == m.Keys - {k};
    assert |m - {k}| == |(m - {k}).Keys| && |m| == |m.Keys|;
  }

  lemma MapUpdated<K, V>(m: map<K, V>, k: K, v: V)
    ensures |m[k := v]| <= |m| + 1
  {
    assert m[k := v].Keys == m.Keys + {k};
    assert |m[k := v]| == |m[k := v].Keys| && |m| == |m.Keys|;
  }

  lemma MapOverwritten<K, V>(m: map<K, V>, k: K, v: V, w: V)
    ensures m[k := v][k := w] == m[k := w]
  {
  }

  lemma SubsetSmaller<T>(x: set<T>, y: set<T>)
    requires x <= y
    ensures |x| <= |y|
  {
    assert y == x + (y - x);
  }

  lemma FewerKeys<K, V>(x: map<K, V>, y: map<K, V>)
    requires x.Keys <= y.Keys
    ensures |x| <= |y|
  {
    SubsetSmaller(x.Keys, y.Keys);
    assert |x| == |x.Keys| && |y| == |y.Keys|;
  }

  lemma LeastExists(keys: set<int>, k: int)
    requires k in keys
    ensures exists least :: least in keys && forall other :: other in keys ==> least <= other
    decreases |keys|
  {
    if smaller :| smaller in keys && smaller < k {
      var rest := keys - {k};
      LeastExists(rest, smaller);
      var least :| least in rest && forall other :: other in rest ==> least <= other;
      assert forall other :: other in keys ==> other in rest || other == k;
      assert least in keys && least <= smaller;
    } else {
      assert forall other :: other in keys ==> k <= other;
    }
  }

  /** The smallest key of a map, where an ordered map starts. */
  function LeastKey<V>(m: map<int, V>): (k: int)
    requires m != map[]
    ensures k in m && forall other :: other in m ==> k <= other
  {
    assert exists k :: k in m by {
      assert (forall k :: k !in m) ==> m == map[];
    }
    assert exists k :: k in m && forall other :: other in m ==> k <= other by {
      var k :| k in m;
      LeastExists(m.Keys, k);
      var least :| least in m.Keys && forall other :: other in m.Keys ==> least <= other;
      assert least in m && forall other :: other in m ==> least <= other;
    }
    var k :| k in m && forall other :: other in m ==> k <= other;
    k
  }
}
