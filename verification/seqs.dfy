/** Generic sequence vocabulary: order-preserving filtering, sums,
    reversal and subsequences, with the facts the view-models need. */
module Seqs {

  /** `xs` with exactly the elements satisfying `p`, in their original order
      (the behaviour of `Array.prototype.filter`). */
  function Filter<T(==)>(xs: seq<T>, p: T -> bool): (r: seq<T>)
    ensures |r| <= |xs|
    ensures forall i :: 0 <= i < |r| ==> r[i] in xs && p(r[i])
    ensures forall i :: 0 <= i < |xs| && p(xs[i]) ==> xs[i] in r
  {
    if |xs| == 0 then []
    else if p(xs[0]) then [xs[0]] + Filter(xs[1..], p)
    else Filter(xs[1..], p)
  }

  lemma {:induction false} FilterConcat<T>(a: seq<T>, b: seq<T>, p: T -> bool)
    ensures Filter(a + b, p) == Filter(a, p) + Filter(b, p)
  {
    if |a| == 0 {
      assert a + b == b;
    } else {
      assert (a + b)[1..] == a[1..] + b;
      FilterConcat(a[1..], b, p);
    }
  }

  /** Filtering keeps everything when every element passes. */
  lemma {:induction false} FilterAllPass<T>(xs: seq<T>, p: T -> bool)
    requires forall i :: 0 <= i < |xs| ==> p(xs[i])
    ensures Filter(xs, p) == xs
  {
    if |xs| > 0 {
      FilterAllPass(xs[1..], p);
    }
  }

  /** Two tests that agree on every element of `xs` select the same rows. */
  lemma {:induction false} FilterCongruent<T>(xs: seq<T>, p: T -> bool, q: T -> bool)
    requires forall i :: 0 <= i < |xs| ==> p(xs[i]) == q(xs[i])
    ensures Filter(xs, p) == Filter(xs, q)
  {
    if |xs| > 0 {
      FilterCongruent(xs[1..], p, q);
    }
  }

  /** Filtering keeps every passing element as often as it occurs and
      drops every failing one. */
  lemma {:induction false} FilterCount<T>(xs: seq<T>, p: T -> bool, e: T)
    ensures multiset(Filter(xs, p))[e] == if p(e) then multiset(xs)[e] else 0
  {
    if |xs| > 0 {
      FilterCount(xs[1..], p, e);
      assert xs == [xs[0]] + xs[1..];
    }
  }

  /** `sub` can be obtained from `xs` by deleting elements (order kept). */
  predicate IsSubsequence<T(==)>(sub: seq<T>, xs: seq<T>)
    decreases |xs|
  {
    if |sub| == 0 then true
    else if |xs| == 0 then false
    else if sub[0] == xs[0] then IsSubsequence(sub[1..], xs[1..])
    else IsSubsequence(sub, xs[1..])
  }

  lemma {:induction false} FilterIsSubsequence<T>(xs: seq<T>, p: T -> bool)
    ensures IsSubsequence(Filter(xs, p), xs)
  {
    if |xs| > 0 {
      FilterIsSubsequence(xs[1..], p);
      if !p(xs[0]) {
        var r := Filter(xs[1..], p);
        if |r| > 0 {
          SubsequenceSkip(r, xs);
        }
      }
    }
  }

  /** A subsequence of the tail is a subsequence of the whole. */
  lemma {:induction false} SubsequenceSkip<T>(sub: seq<T>, xs: seq<T>)
    requires |xs| > 0 && IsSubsequence(sub, xs[1..])
    ensures IsSubsequence(sub, xs)
    decreases |xs| + |sub|
  {
    if |sub| > 0 && sub[0] == xs[0] {
      // `sub` also matches starting at the head: drop its first element
      // from the tail embedding.
      SubsequenceDropHead(sub, xs[1..]);
    }
  }

  /** Dropping the first element keeps a subsequence a subsequence. */
  lemma {:induction false} SubsequenceDropHead<T>(sub: seq<T>, xs: seq<T>)
    requires |sub| > 0 && IsSubsequence(sub, xs)
    ensures IsSubsequence(sub[1..], xs)
    decreases |xs| + |sub|
  {
    if sub[0] == xs[0] {
      if |sub[1..]| > 0 {
        SubsequenceSkip(sub[1..], xs);
      }
    } else {
      SubsequenceDropHead(sub, xs[1..]);
      if |sub[1..]| > 0 {
        SubsequenceSkip(sub[1..], xs);
      }
    }
  }

  /** Sum of `f` over the elements of `xs` (a `reduce` with initial value 0). */
  function Sum<T>(xs: seq<T>, f: T -> int): int
  {
    if |xs| == 0 then 0 else f(xs[0]) + Sum(xs[1..], f)
  }

  lemma {:induction false} SumConcat<T>(a: seq<T>, b: seq<T>, f: T -> int)
    ensures Sum(a + b, f) == Sum(a, f) + Sum(b, f)
  {
    if |a| == 0 {
      assert a + b == b;
    } else {
      assert (a + b)[1..] == a[1..] + b;
      SumConcat(a[1..], b, f);
    }
  }

  /** A sum does not depend on the order of the summands. */
  lemma {:induction false} SumPermutation<T>(xs: seq<T>, ys: seq<T>, f: T -> int)
    requires multiset(xs) == multiset(ys)
    ensures Sum(xs, f) == Sum(ys, f)
    decreases |xs|
  {
    if |xs| == 0 {
      assert |ys| == |multiset(ys)| == 0;
    } else {
      var x := xs[0];
      assert x in multiset(ys);
      var k :| 0 <= k < |ys| && ys[k] == x;
      var rest := ys[..k] + ys[k + 1..];
      MultisetRemoveAt(ys, k);
      assert xs == [x] + xs[1..];
      assert multiset(xs[1..]) == multiset(xs) - multiset{x};
      SumPermutation(xs[1..], rest, f);
      SumRemoveAt(ys, k, f);
    }
  }

  lemma MultisetRemoveAt<T>(ys: seq<T>, k: nat)
    requires k < |ys|
    ensures multiset(ys[..k] + ys[k + 1..]) == multiset(ys) - multiset{ys[k]}
  {
    assert ys == ys[..k] + [ys[k]] + ys[k + 1..];
  }

  lemma {:induction false} SumRemoveAt<T>(ys: seq<T>, k: nat, f: T -> int)
    requires k < |ys|
    ensures Sum(ys, f) == f(ys[k]) + Sum(ys[..k] + ys[k + 1..], f)
  {
    var a, b := ys[..k], ys[k + 1..];
    assert ys == (a + [ys[k]]) + b;
    SumConcat(a + [ys[k]], b, f);
    SumConcat(a, [ys[k]], f);
    SumConcat(a, b, f);
    assert Sum([ys[k]], f) == f(ys[k]) + Sum([], f);
  }

  /** Summing over a filtered sequence is summing `f` where `p` holds and
      0 elsewhere over the unfiltered one. */
  lemma {:induction false} SumFilter<T>(xs: seq<T>, p: T -> bool, f: T -> int, g: T -> int)
    requires forall i :: 0 <= i < |xs| ==> g(xs[i]) == (if p(xs[i]) then f(xs[i]) else 0)
    ensures Sum(Filter(xs, p), f) == Sum(xs, g)
  {
    if |xs| > 0 {
      SumFilter(xs[1..], p, f, g);
    }
  }

  function Reverse<T>(xs: seq<T>): (r: seq<T>)
    ensures |r| == |xs|
    ensures forall i :: 0 <= i < |xs| ==> r[i] == xs[|xs| - 1 - i]
  {
    if |xs| == 0 then [] else Reverse(xs[1..]) + [xs[0]]
  }

  lemma {:induction false} ReverseMultiset<T>(xs: seq<T>)
    ensures multiset(Reverse(xs)) == multiset(xs)
  {
    if |xs| > 0 {
      ReverseMultiset(xs[1..]);
      assert xs == [xs[0]] + xs[1..];
    }
  }
}
