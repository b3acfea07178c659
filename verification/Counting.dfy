/** Cardinality facts that several results rest on. */
module Counting {

  lemma {:induction false} SubsetSize<T>(a: set<T>, b: set<T>)
    requires a <= b
    ensures |a| <= |b|
  {
    if a == {} {
    } else {
      var x :| x in a;
      SubsetSize(a - {x}, b - {x});
    }
  }

  function UpTo(n: nat): (s: set<nat>)
    ensures |s| == n && forall k :: k in s <==> 0 <= k < n
  {
    if n == 0 then {} else UpTo(n - 1) + {n - 1}
  }

  function Elements<T>(xs: seq<T>): set<T> {
    set x | x in xs
  }

  lemma {:induction false} DistinctSize<T>(xs: seq<T>)
    requires forall i, j :: 0 <= i < j < |xs| ==> xs[i] != xs[j]
    ensures |Elements(xs)| == |xs|
  {
    if xs == [] {
    } else {
      var k := |xs| - 1;
      DistinctSize(xs[..k]);
      assert forall x :: x in xs <==> x in xs[..k] || x == xs[k];
      assert Elements(xs) == Elements(xs[..k]) + {xs[k]};
    }
  }

  /** More numbers than there are values below the bound: two are equal. */
  lemma Pigeonhole(xs: seq<nat>, n: nat)
    requires |xs| > n && forall i :: 0 <= i < |xs| ==> xs[i] < n
    ensures exists i, j :: 0 <= i < j < |xs| && xs[i] == xs[j]
  {
    if forall i, j :: 0 <= i < j < |xs| ==> xs[i] != xs[j] {
      DistinctSize(xs);
      SubsetSize(Elements(xs), UpTo(n));
    }
  }

  function Names<T, U>(s: set<T>, name: map<T, U>): set<U>
    requires s <= name.Keys
  {
    set x | x in s :: name[x]
  }

  /** A naming that tells all members apart gives as many names as members. */
  lemma {:induction false} InjectiveSize<T, U>(s: set<T>, name: map<T, U>)
    requires s <= name.Keys && forall x, y :: x in s && y in s && name[x] == name[y] ==> x == y
    ensures |Names(s, name)| == |s|
  {
    if s == {} {
    } else {
      var x :| x in s;
      InjectiveSize(s - {x}, name);
      assert Names(s, name) == Names(s - {x}, name) + {name[x]};
    }
  }
}
