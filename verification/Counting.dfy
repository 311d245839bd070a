/** Positions at which a stream satisfies a predicate, and sizes of sets and maps. */
module Counting {

  function Where<T>(s: seq<T>, p: T -> bool): set<nat> {
    set i: nat | i < |s| && p(s[i])
  }

  lemma WhereGrows<T>(s: seq<T>, n: nat, p: T -> bool)
    requires n < |s|
    ensures Where(s[..n + 1], p) == Where(s[..n], p) + (if p(s[n]) then {n} else {})
    ensures |Where(s[..n + 1], p)| == |Where(s[..n], p)| + (if p(s[n]) then 1 else 0)
  {
    assert Where(s[..n + 1], p) == Where(s[..n], p) + (if p(s[n]) then {n} else {});
  }

  lemma {:induction false} SubsetSize<T>(a: set<T>, b: set<T>)
    requires a <= b
    ensures |a| <= |b| && (|a| == |b| <==> a == b)
  {
    if a != {} {
      var x :| x in a;
      SubsetSize(a - {x}, b - {x});
    }
  }

  ghost predicate Injective<K, V>(m: map<K, V>) {
    forall a, b :: a in m && b in m && m[a] == m[b] ==> a == b
  }

  /** A map takes as many values as it has keys exactly when it is injective. */
  lemma {:induction false} ValuesSize<K, V>(m: map<K, V>)
    ensures |m.Values| <= |m.Keys| && (|m.Values| == |m.Keys| <==> Injective(m))
    decreases |m.Keys|
  {
    if m.Keys == {} {
      assert m.Values == {};
    } else {
      var k :| k in m;
      var rest := m - {k};
      assert rest.Keys == m.Keys - {k} && forall a :: a in rest ==> rest[a] == m[a];
      ValuesSize(rest);
      ValuesOfRest(m, k);
      if m[k] in rest.Values {
        var other :| other in rest && rest[other] == m[k];
        assert m.Values == rest.Values;
      } else {
        assert |m.Values| == |rest.Values| + 1;
        if Injective(rest) {
          forall a, b | a in m && b in m && m[a] == m[b]
            ensures a == b
          {
            assert a != k ==> a in rest && m[a] in rest.Values;
            assert b != k ==> b in rest && m[b] in rest.Values;
          }
        }
      }
    }
  }

  lemma ValuesOfRest<K, V>(m: map<K, V>, k: K)
    requires k in m
    ensures m.Values == (m - {k}).Values + {m[k]}
  {
    var rest := m - {k};
    forall v | v in m.Values
      ensures v in rest.Values + {m[k]}
    {
      var a :| a in m && m[a] == v;
      assert a != k ==> a in rest && rest[a] == v;
    }
  }
}
