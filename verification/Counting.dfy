/** Cardinalities of sets built from sequences, maps and number ranges. */
module Counting {
  import opened Common

  function Elements<T>(s: seq<T>): set<T> {
    set x | x in s
  }

  function Upto(n: nat): (s: set<nat>)
    ensures forall i :: i in s <==> 1 <= i <= n
  {
    if n == 0 then {} else Upto(n - 1) + {n}
  }

  function Below(n: nat): (s: set<nat>)
    ensures forall i :: i in s <==> 0 <= i < n
  {
    if n == 0 then {} else Below(n - 1) + {n - 1}
  }

  lemma {:induction false} DistinctSize<T>(s: seq<T>)
    requires Distinct(s)
    ensures |Elements(s)| == |s|
  {
    if s != [] {
      var k := |s| - 1;
      DistinctSize(s[..k]);
      assert Elements(s) == Elements(s[..k]) + {s[k]};
      assert s[k] !in s[..k];
    }
  }

  lemma {:induction false} UptoSize(n: nat)
    ensures |Upto(n)| == n
  {
    if n > 0 {
      UptoSize(n - 1);
    }
  }

  lemma {:induction false} BelowSize(n: nat)
    ensures |Below(n)| == n
  {
    if n > 0 {
      BelowSize(n - 1);
    }
  }

  lemma {:induction false} SubsetSize<T>(a: set<T>, b: set<T>)
    requires a <= b
    ensures |a| <= |b|
  {
    assert b == a + (b - a);
  }

  lemma DisjointSize<T>(a: set<T>, b: set<T>)
    requires a !! b
    ensures |a + b| == |a| + |b|
  {
  }

  lemma PartitionSize<T>(
    all: set<T>, a: set<T>, b: set<T>, c: set<T>, d: set<T>, e: set<T>, f: set<T>, g: set<T>)
    requires a !! b !! c !! d !! e !! f !! g
    requires all == a + b + c + d + e + f + g
    ensures |all| == |a| + |b| + |c| + |d| + |e| + |f| + |g|
  {
    DisjointSize(a, b);
    DisjointSize(a + b, c);
    DisjointSize(a + b + c, d);
    DisjointSize(a + b + c + d, e);
    DisjointSize(a + b + c + d + e, f);
    DisjointSize(a + b + c + d + e + f, g);
  }

  ghost predicate Injective<K, V>(m: map<K, V>) {
    forall a, b :: a in m && b in m && m[a] == m[b] ==> a == b
  }

  /** An injective map has as many values as keys. */
  lemma {:induction false} InjectiveSize<K, V>(m: map<K, V>)
    requires Injective(m)
    ensures |m.Values| == |m.Keys|
    decreases |m|
  {
    if m.Keys != {} {
      var k :| k in m.Keys;
      var rest := m - {k};
      assert rest.Keys == m.Keys - {k};
      assert forall v :: v in rest.Values <==> v in m.Values && v != m[k] by {
        forall v | v in m.Values && v != m[k] ensures v in rest.Values {
          var j :| j in m && m[j] == v;
          assert rest[j] == v;
        }
      }
      assert m.Values == rest.Values + {m[k]};
      InjectiveSize(rest);
    }
  }
}
