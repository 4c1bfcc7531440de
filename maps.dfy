/** Facts about maps whose values carry their own key. */
module Maps {

  /** When every value records the key it is stored under, distinct keys hold distinct
      values, so there are exactly as many values as keys. */
  lemma {:induction false} KeyedValuesCount<K, V>(m: map<K, V>, key: V -> K)
    requires forall k :: k in m ==> key(m[k]) == k
    ensures |m.Values| == |m.Keys|
    decreases |m.Keys|
  {
    if m.Keys != {} {
      var k :| k in m.Keys;
      var rest := m - {k};
      forall v | v in m.Values - {m[k]} ensures v in rest.Values {
        var j :| j in m && m[j] == v;
        assert j != k;
        assert rest[j] == v;
      }
      forall v | v in rest.Values ensures v in m.Values - {m[k]} {
        var j :| j in rest && rest[j] == v;
        assert key(v) == j != k == key(m[k]);
      }
      assert rest.Values == m.Values - {m[k]};
      assert rest.Keys == m.Keys - {k};
      KeyedValuesCount(rest, key);
    }
  }
}
