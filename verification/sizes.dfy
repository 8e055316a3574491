/** Sizes of finite sets and maps. */
module Sizes {
  /** A map that takes no value twice has as many values as keys. */
  lemma {:induction false} InjectiveSize<K, V>(m: map<K, V>)
    requires forall k, l :: k in m && l in m && m[k] == m[l] ==> k == l
    ensures |m| == |m.Values|
  {
    if m != map[] {
      var k :| k in m;
      var rest := m - {k};
      InjectiveSize(rest);
      ValuesSplit(m, k);
      assert m[k] !in rest.Values;
    }
  }

  lemma ValuesSplit<K, V>(m: map<K, V>, k: K)
    requires k in m
    ensures m.Values == (m - {k}).Values + {m[k]}
  {
    var rest := m - {k};
    forall v | v in m.Values
      ensures v in rest.Values + {m[k]}
    {
      var l :| l in m && m[l] == v;
      if l != k {
        assert l in rest && rest[l] == v;
      }
    }
    forall v | v in rest.Values
      ensures v in m.Values
    {
      var l :| l in rest && rest[l] == v;
      assert l in m && m[l] == v;
    }
  }

  lemma SubsetSize<T>(a: set<T>, b: set<T>)
    requires a <= b
    ensures |a| <= |b|
  {
    assert b == a + (b - a);
  }
}
