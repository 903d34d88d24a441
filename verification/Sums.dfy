/** Finite sums over the values of a map, independent of the order in which the keys are visited. */
module Sums {

  ghost function SumOver<K>(m: map<K, nat>, s: set<K>): (r: nat)
    requires s <= m.Keys
  {
    if s == {} then 0 else
      var k :| k in s;
      m[k] + SumOver(m, s - {k})
  }

  /** Any key may be taken out first. */
  lemma {:induction false} SumRemove<K>(m: map<K, nat>, s: set<K>, k: K)
    requires s <= m.Keys && k in s
    ensures SumOver(m, s) == m[k] + SumOver(m, s - {k})
    decreases s
  {
    var j :| j in s && SumOver(m, s) == m[j] + SumOver(m, s - {j});
    if j != k {
      SumRemove(m, s - {j}, k);
      SumRemove(m, s - {k}, j);
      assert s - {j} - {k} == s - {k} - {j};
    }
  }

  lemma SumInsert<K>(m: map<K, nat>, s: set<K>, k: K)
    requires s <= m.Keys && k in m && k !in s
    ensures SumOver(m, s + {k}) == m[k] + SumOver(m, s)
  {
    SumRemove(m, s + {k}, k);
    assert s + {k} - {k} == s;
  }

  /** Only the values at the summed keys matter. */
  lemma {:induction false} SumAgree<K>(m: map<K, nat>, n: map<K, nat>, s: set<K>)
    requires s <= m.Keys && s <= n.Keys
    requires forall k :: k in s ==> m[k] == n[k]
    ensures SumOver(m, s) == SumOver(n, s)
    decreases s
  {
    if s != {} {
      var k :| k in s;
      SumRemove(m, s, k);
      SumRemove(n, s, k);
      SumAgree(m, n, s - {k});
    }
  }

  lemma {:induction false} SumMonotone<K>(m: map<K, nat>, s: set<K>, t: set<K>)
    requires s <= t <= m.Keys
    ensures SumOver(m, s) <= SumOver(m, t)
    decreases t
  {
    if k :| k in t && k !in s {
      SumRemove(m, t, k);
      SumMonotone(m, s, t - {k});
    } else {
      assert s == t;
    }
  }

  /** Inclusion and exclusion for two key sets. */
  lemma {:induction false} SumUnionIntersection<K>(m: map<K, nat>, s: set<K>, t: set<K>)
    requires s <= m.Keys && t <= m.Keys
    ensures SumOver(m, s) + SumOver(m, t) == SumOver(m, s + t) + SumOver(m, s * t)
    decreases s
  {
    if s == {} {
      assert s + t == t && s * t == {};
    } else {
      var k :| k in s;
      SumRemove(m, s, k);
      SumUnionIntersection(m, s - {k}, t);
      if k in t {
        assert (s - {k}) + t == s + t && (s - {k}) * t == s * t - {k};
        SumRemove(m, s * t, k);
      } else {
        assert (s - {k}) + t == s + t - {k} && (s - {k}) * t == s * t;
        SumRemove(m, s + t, k);
      }
    }
  }

  /** Every value bounded by c bounds the sum by c per key. */
  lemma {:induction false} SumBounded<K>(m: map<K, nat>, s: set<K>, c: nat)
    requires s <= m.Keys
    requires forall k :: k in s ==> m[k] <= c
    ensures SumOver(m, s) <= c * |s|
    decreases s
  {
    if s != {} {
      var k :| k in s;
      SumRemove(m, s, k);
      SumBounded(m, s - {k}, c);
      calc {
        m[k] + SumOver(m, s - {k});
      <=
        c + c * (|s| - 1);
      ==
        c * |s|;
      }
    }
  }
}
