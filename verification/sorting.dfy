/** Stable sorting by a three-way comparator, the contract of
    `Array.prototype.sort` since ECMAScript 2019: the result is a
    permutation of the input, ordered by the comparator, and elements the
    comparator calls equal keep their relative order. */
module Sorting {
  import opened Seqs

  /** A comparator that describes a total preorder: swapping the
      arguments negates the answer, and "not after" is transitive. */
  ghost predicate IsConsistent<T(!new)>(cmp: (T, T) -> int)
  {
    && (forall a, b :: cmp(a, b) == -cmp(b, a))
    && (forall a, b, d :: TransitiveAt(cmp, a, b, d))
  }

  /** Transitivity of "not after" for one triple; kept as a separate
      predicate so that it is used only where a proof asks for it. */
  ghost predicate TransitiveAt<T>(cmp: (T, T) -> int, a: T, b: T, d: T)
  {
    cmp(a, b) <= 0 && cmp(b, d) <= 0 ==> cmp(a, d) <= 0
  }

  lemma Transitive<T(!new)>(cmp: (T, T) -> int, a: T, b: T, d: T)
    requires IsConsistent(cmp)
    ensures cmp(a, b) <= 0 && cmp(b, d) <= 0 ==> cmp(a, d) <= 0
  {
    assert TransitiveAt(cmp, a, b, d);
  }

  /** Being tied with a common element makes two elements tied. */
  lemma TiesAgree<T(!new)>(cmp: (T, T) -> int, a: T, b: T, e: T)
    requires IsConsistent(cmp)
    ensures cmp(a, e) == 0 && cmp(b, e) == 0 ==> cmp(a, b) == 0
  {
    Transitive(cmp, a, e, b);
    Transitive(cmp, b, e, a);
  }

  /** Every earlier element compares at most 0 with every later one. */
  ghost predicate IsSortedBy<T>(s: seq<T>, cmp: (T, T) -> int)
  {
    forall i, j :: 0 <= i < j < |s| ==> cmp(s[i], s[j]) <= 0
  }

  function TiesWith<T>(e: T, cmp: (T, T) -> int): T -> bool
  {
    y => cmp(y, e) == 0
  }

  /** The elements of `s` the comparator cannot tell apart from `e`, in order. */
  function Tied<T(==)>(s: seq<T>, e: T, cmp: (T, T) -> int): seq<T>
  {
    Filter(s, TiesWith(e, cmp))
  }

  /** Every tie class appears in `r` in the order it has in `xs`. */
  ghost predicate StableWrt<T(!new)>(r: seq<T>, xs: seq<T>, cmp: (T, T) -> int)
  {
    forall e :: Tied(r, e, cmp) == Tied(xs, e, cmp)
  }

  /** Puts `x` after every element that strictly precedes it and before
      the first one that does not. */
  function Insert<T>(x: T, s: seq<T>, cmp: (T, T) -> int): seq<T>
  {
    if |s| == 0 then [x]
    else if cmp(s[0], x) < 0 then [s[0]] + Insert(x, s[1..], cmp)
    else [x] + s
  }

  /** Insertion sort, inserting each head into the sorted tail. */
  function StableSort<T>(xs: seq<T>, cmp: (T, T) -> int): (r: seq<T>)
    ensures multiset(r) == multiset(xs)
  {
    if |xs| == 0 then []
    else
      var rest := StableSort(xs[1..], cmp);
      InsertMultiset(xs[0], rest, cmp);
      assert xs == [xs[0]] + xs[1..];
      Insert(xs[0], rest, cmp)
  }

  lemma {:induction false} InsertMultiset<T>(x: T, s: seq<T>, cmp: (T, T) -> int)
    ensures multiset(Insert(x, s, cmp)) == multiset(s) + multiset{x}
  {
    if |s| > 0 && cmp(s[0], x) < 0 {
      InsertMultiset(x, s[1..], cmp);
      assert s == [s[0]] + s[1..];
    }
  }

  lemma {:induction false} InsertSorted<T(!new)>(x: T, s: seq<T>, cmp: (T, T) -> int)
    requires IsConsistent(cmp)
    requires IsSortedBy(s, cmp)
    ensures IsSortedBy(Insert(x, s, cmp), cmp)
  {
    if |s| == 0 {
    } else if cmp(s[0], x) < 0 {
      InsertSorted(x, s[1..], cmp);
      InsertBelow(s[0], x, s[1..], cmp);
      ConsSorted(s[0], Insert(x, s[1..], cmp), cmp);
    } else {
      forall j | 0 <= j < |s|
        ensures cmp(x, s[j]) <= 0
      {
        Transitive(cmp, x, s[0], s[j]);
      }
      ConsSorted(x, s, cmp);
    }
  }

  /** An element not after `x` nor after anything in `s` is not after
      anything in `Insert(x, s)`. */
  lemma {:induction false} InsertBelow<T>(y: T, x: T, s: seq<T>, cmp: (T, T) -> int)
    requires cmp(y, x) <= 0
    requires forall i :: 0 <= i < |s| ==> cmp(y, s[i]) <= 0
    ensures forall j :: 0 <= j < |Insert(x, s, cmp)| ==> cmp(y, Insert(x, s, cmp)[j]) <= 0
  {
    if |s| > 0 && cmp(s[0], x) < 0 {
      InsertBelow(y, x, s[1..], cmp);
    }
  }

  /** A sorted sequence stays sorted with an element in front that is
      not after any of it. */
  lemma ConsSorted<T>(y: T, s: seq<T>, cmp: (T, T) -> int)
    requires IsSortedBy(s, cmp)
    requires forall j :: 0 <= j < |s| ==> cmp(y, s[j]) <= 0
    ensures IsSortedBy([y] + s, cmp)
  {
    var r := [y] + s;
    forall i, j | 0 <= i < j < |r|
      ensures cmp(r[i], r[j]) <= 0
    {
      if i > 0 {
        assert r[i] == s[i - 1] && r[j] == s[j - 1];
      } else {
        assert r[j] == s[j - 1];
      }
    }
  }

  lemma {:induction false} InsertStable<T(!new)>(x: T, s: seq<T>, cmp: (T, T) -> int, e: T)
    requires IsConsistent(cmp)
    ensures Tied(Insert(x, s, cmp), e, cmp)
         == (if cmp(x, e) == 0 then [x] else []) + Tied(s, e, cmp)
  {
    var p := TiesWith(e, cmp);
    if |s| == 0 {
    } else if cmp(s[0], x) < 0 {
      var rest := Insert(x, s[1..], cmp);
      InsertStable(x, s[1..], cmp, e);
      assert ([s[0]] + rest)[1..] == rest;
      assert s == [s[0]] + s[1..];
      TiesAgree(cmp, s[0], x, e);
      assert !(p(s[0]) && p(x));
    } else {
      assert ([x] + s)[1..] == s;
    }
  }

  /** With a consistent comparator the insertion sort is ordered. */
  lemma {:induction false} SortIsSorted<T(!new)>(xs: seq<T>, cmp: (T, T) -> int)
    requires IsConsistent(cmp)
    ensures IsSortedBy(StableSort(xs, cmp), cmp)
  {
    if |xs| > 0 {
      SortIsSorted(xs[1..], cmp);
      InsertSorted(xs[0], StableSort(xs[1..], cmp), cmp);
    }
  }

  /** With a consistent comparator the insertion sort is stable. */
  lemma {:induction false} SortIsStable<T(!new)>(xs: seq<T>, cmp: (T, T) -> int)
    requires IsConsistent(cmp)
    ensures StableWrt(StableSort(xs, cmp), xs, cmp)
  {
    if |xs| > 0 {
      SortIsStable(xs[1..], cmp);
      var rest := StableSort(xs[1..], cmp);
      assert xs == [xs[0]] + xs[1..];
      forall e
        ensures Tied(StableSort(xs, cmp), e, cmp) == Tied(xs, e, cmp)
      {
        InsertStable(xs[0], rest, cmp, e);
      }
    }
  }

  /** No two different elements of `xs` compare equal. */
  ghost predicate NoTies<T>(xs: seq<T>, cmp: (T, T) -> int)
  {
    forall i, j :: 0 <= i < |xs| && 0 <= j < |xs| && xs[i] != xs[j] ==> cmp(xs[i], xs[j]) != 0
  }

  /** Without ties there is only one sorted arrangement of a multiset. */
  lemma {:induction false} SortedUnique<T(!new)>(r1: seq<T>, r2: seq<T>, cmp: (T, T) -> int)
    requires IsConsistent(cmp)
    requires multiset(r1) == multiset(r2)
    requires IsSortedBy(r1, cmp) && IsSortedBy(r2, cmp)
    requires NoTies(r1, cmp)
    ensures r1 == r2
    decreases |r1|
  {
    assert |r2| == |multiset(r2)| == |multiset(r1)| == |r1|;
    if |r1| > 0 {
      assert r1[0] == r2[0] && multiset(r1[1..]) == multiset(r2[1..])
          && IsSortedBy(r1[1..], cmp) && IsSortedBy(r2[1..], cmp) && NoTies(r1[1..], cmp) by {
        HeadsAgree(r1, r2, cmp);
        TailMultiset(r1);
        TailMultiset(r2);
        NoTiesTail(r1, cmp);
        SortedTail(r1, cmp);
        SortedTail(r2, cmp);
      }
      SortedUnique(r1[1..], r2[1..], cmp);
      assert r1 == [r1[0]] + r1[1..];
      assert r2 == [r2[0]] + r2[1..];
    }
  }

  /** Two tie-free sorted arrangements of one multiset start alike: both
      start with the element that precedes all others. */
  lemma HeadsAgree<T(!new)>(r1: seq<T>, r2: seq<T>, cmp: (T, T) -> int)
    requires IsConsistent(cmp)
    requires |r1| > 0 && multiset(r1) == multiset(r2)
    requires IsSortedBy(r1, cmp) && IsSortedBy(r2, cmp)
    requires NoTies(r1, cmp)
    ensures |r2| > 0 && r1[0] == r2[0]
  {
    assert |r2| == |multiset(r2)| == |multiset(r1)| == |r1|;
    assert r2[0] in multiset(r1) && r1[0] in multiset(r2);
    var i :| 0 <= i < |r1| && r1[i] == r2[0];
    var j :| 0 <= j < |r2| && r2[j] == r1[0];
    assert i == 0 || cmp(r1[0], r2[0]) <= 0;
    assert j == 0 || cmp(r2[0], r1[0]) <= 0;
  }

  lemma TailMultiset<T>(r: seq<T>)
    requires |r| > 0
    ensures multiset(r[1..]) == multiset(r) - multiset{r[0]}
  {
    assert r == [r[0]] + r[1..];
  }

  lemma SortedTail<T>(r: seq<T>, cmp: (T, T) -> int)
    requires |r| > 0 && IsSortedBy(r, cmp)
    ensures IsSortedBy(r[1..], cmp)
  {
    forall i, j | 0 <= i < j < |r[1..]|
      ensures cmp(r[1..][i], r[1..][j]) <= 0
    {
      assert r[1..][i] == r[i + 1] && r[1..][j] == r[j + 1];
    }
  }

  lemma NoTiesTail<T>(r: seq<T>, cmp: (T, T) -> int)
    requires |r| > 0 && NoTies(r, cmp)
    ensures NoTies(r[1..], cmp)
  {
    forall a, b | 0 <= a < |r[1..]| && 0 <= b < |r[1..]| && r[1..][a] != r[1..][b]
      ensures cmp(r[1..][a], r[1..][b]) != 0
    {
      assert r[1..][a] == r[a + 1] && r[1..][b] == r[b + 1];
    }
  }

  /** Reading a sorted sequence backwards sorts it by the mirrored comparator. */
  lemma ReverseSorted<T>(r: seq<T>, cmp: (T, T) -> int, mirror: (T, T) -> int)
    requires forall a, b :: mirror(a, b) == cmp(b, a)
    requires IsSortedBy(r, cmp)
    ensures IsSortedBy(Reverse(r), mirror)
  {
    var rev := Reverse(r);
    forall i, j | 0 <= i < j < |rev|
      ensures mirror(rev[i], rev[j]) <= 0
    {
      assert rev[i] == r[|r| - 1 - i] && rev[j] == r[|r| - 1 - j];
    }
  }
}
