/** sort.Strings: lexical order of file names. */
module FileOrder {

  /** Byte order of Go strings; UTF-8 keeps the order of the characters. */
  predicate AtMost(a: string, b: string) {
    a == "" || (b != "" && (a[0] < b[0] || (a[0] == b[0] && AtMost(a[1..], b[1..]))))
  }

  lemma {:induction false} AtMostTotal(a: string, b: string)
    ensures AtMost(a, b) || AtMost(b, a)
  {
    if a == "" || b == "" || a[0] != b[0] {
    } else {
      AtMostTotal(a[1..], b[1..]);
    }
  }

  lemma {:induction false} AtMostAntisymmetric(a: string, b: string)
    requires AtMost(a, b) && AtMost(b, a)
    ensures a == b
  {
    if a == "" || b == "" {
    } else {
      AtMostAntisymmetric(a[1..], b[1..]);
      assert a == [a[0]] + a[1..] && b == [b[0]] + b[1..];
    }
  }

  lemma {:induction false} AtMostTransitive(a: string, b: string, c: string)
    requires AtMost(a, b) && AtMost(b, c)
    ensures AtMost(a, c)
  {
    if a == "" || b == "" || c == "" || a[0] != b[0] || b[0] != c[0] {
    } else {
      AtMostTransitive(a[1..], b[1..], c[1..]);
    }
  }

  predicate Sorted(xs: seq<string>) {
    forall i, j :: 0 <= i < j < |xs| ==> AtMost(xs[i], xs[j])
  }

  function Insert(x: string, xs: seq<string>): seq<string> {
    if xs == [] || AtMost(x, xs[0]) then [x] + xs else [xs[0]] + Insert(x, xs[1..])
  }

  function Sort(xs: seq<string>): seq<string> {
    if xs == [] then [] else Insert(xs[0], Sort(xs[1..]))
  }

  lemma ConsSorted(x: string, xs: seq<string>)
    requires Sorted(xs) && forall k :: 0 <= k < |xs| ==> AtMost(x, xs[k])
    ensures Sorted([x] + xs)
  {
    hide AtMost;
  }

  lemma {:induction false} InsertSorted(x: string, xs: seq<string>)
    requires Sorted(xs)
    ensures Sorted(Insert(x, xs)) && multiset(Insert(x, xs)) == multiset(xs) + multiset{x}
  {
    hide AtMost;
    if xs == [] {
    } else if AtMost(x, xs[0]) {
      forall k | 0 <= k < |xs|
        ensures AtMost(x, xs[k])
      {
        if k > 0 {
          AtMostTransitive(x, xs[0], xs[k]);
        }
      }
      ConsSorted(x, xs);
    } else {
      var rest := Insert(x, xs[1..]);
      InsertSorted(x, xs[1..]);
      assert xs == [xs[0]] + xs[1..];
      AtMostTotal(x, xs[0]);
      forall k | 0 <= k < |rest|
        ensures AtMost(xs[0], rest[k])
      {
        assert rest[k] in multiset(rest);
        assert rest[k] == x || rest[k] in xs[1..];
      }
      ConsSorted(xs[0], rest);
    }
  }

  /** The result is a sorted rearrangement. */
  lemma {:induction false} SortSorts(xs: seq<string>)
    ensures Sorted(Sort(xs)) && multiset(Sort(xs)) == multiset(xs)
  {
    if xs == [] {
    } else {
      hide Insert, Sorted;
      SortSorts(xs[1..]);
      InsertSorted(xs[0], Sort(xs[1..]));
      assert xs == [xs[0]] + xs[1..];
    }
  }

  lemma {:induction false} SortedUnique(xs: seq<string>, ys: seq<string>)
    requires Sorted(xs) && Sorted(ys) && multiset(xs) == multiset(ys)
    ensures xs == ys
  {
    if xs == [] {
      assert |multiset(ys)| == 0;
    } else {
      SameLength(xs, ys);
      SameHead(xs, ys);
      TailCount(xs);
      TailCount(ys);
      SortedUnique(xs[1..], ys[1..]);
      assert xs == [xs[0]] + xs[1..] && ys == [ys[0]] + ys[1..];
    }
  }

  lemma SameLength(xs: seq<string>, ys: seq<string>)
    requires multiset(xs) == multiset(ys)
    ensures |xs| == |ys|
  {
    assert |multiset(xs)| == |xs| && |multiset(ys)| == |ys|;
  }

  lemma TailCount(xs: seq<string>)
    requires xs != []
    ensures multiset(xs[1..]) == multiset(xs) - multiset{xs[0]}
  {
    assert xs == [xs[0]] + xs[1..];
  }

  lemma SameHead(xs: seq<string>, ys: seq<string>)
    requires Sorted(xs) && Sorted(ys) && multiset(xs) == multiset(ys) && xs != [] && ys != []
    ensures xs[0] == ys[0]
  {
    hide AtMost;
    assert xs[0] in multiset(ys) && ys[0] in multiset(xs);
    var i :| 0 <= i < |ys| && ys[i] == xs[0];
    var j :| 0 <= j < |xs| && xs[j] == ys[0];
    SmallestFirst(xs, j);
    SmallestFirst(ys, i);
    AtMostAntisymmetric(xs[0], ys[0]);
  }

  lemma SmallestFirst(xs: seq<string>, j: nat)
    requires Sorted(xs) && j < |xs|
    ensures AtMost(xs[0], xs[j])
  {
    if j == 0 {
      AtMostTotal(xs[0], xs[0]);
    }
  }

  /** The order in which the directory lists its files is irrelevant. */
  lemma ListingIrrelevant(xs: seq<string>, ys: seq<string>)
    requires multiset(xs) == multiset(ys)
    ensures Sort(xs) == Sort(ys)
  {
    SortSorts(xs);
    SortSorts(ys);
    SortedUnique(Sort(xs), Sort(ys));
  }
}
