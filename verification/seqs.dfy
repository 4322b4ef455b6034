/** Order-preserving filtering of sequences (`Array.prototype.filter`) and the subsequence relation. */
module Seqs {

  /** The elements of `xs` that satisfy `keep`, in their original order. */
  function Filter<T(!new)>(xs: seq<T>, keep: T -> bool): (r: seq<T>)
    ensures |r| <= |xs|
    ensures forall x :: x in r <==> x in xs && keep(x)
  {
    if |xs| == 0 then []
    else
      var rest := Filter(xs[1..], keep);
      assert forall x :: x in xs <==> x == xs[0] || x in xs[1..];
      if keep(xs[0]) then [xs[0]] + rest else rest
  }

  /** `a` can be obtained from `b` by deleting elements, without reordering the rest. */
  predicate IsSubsequence<T(==)>(a: seq<T>, b: seq<T>)
    decreases |b|
  {
    if |a| == 0 then true
    else if |b| == 0 then false
    else (a[0] == b[0] && IsSubsequence(a[1..], b[1..])) || IsSubsequence(a, b[1..])
  }

  /** Filtering keeps the surviving elements in their original relative order. */
  lemma {:induction false} FilterIsSubsequence<T(!new)>(xs: seq<T>, keep: T -> bool)
    ensures IsSubsequence(Filter(xs, keep), xs)
    decreases |xs|
  {
    if |xs| > 0 {
      FilterIsSubsequence(xs[1..], keep);
      var rest := Filter(xs[1..], keep);
      if keep(xs[0]) {
        var r := [xs[0]] + rest;
        assert r[0] == xs[0] && r[1..] == rest;
      } else {
        assert Filter(xs, keep) == rest;
      }
    }
  }

  /** When every element is kept, filtering is the identity. */
  lemma {:induction false} FilterKeepsAll<T(!new)>(xs: seq<T>, keep: T -> bool)
    requires forall i :: 0 <= i < |xs| ==> keep(xs[i])
    ensures Filter(xs, keep) == xs
    decreases |xs|
  {
    if |xs| > 0 {
      FilterKeepsAll(xs[1..], keep);
      assert [xs[0]] + xs[1..] == xs;
    }
  }

  /** Filtering distributes over concatenation. */
  lemma {:induction false} FilterAppend<T(!new)>(a: seq<T>, b: seq<T>, keep: T -> bool)
    ensures Filter(a + b, keep) == Filter(a, keep) + Filter(b, keep)
    decreases |a|
  {
    if |a| > 0 {
      FilterAppend(a[1..], b, keep);
      assert (a + b)[1..] == a[1..] + b;
    } else {
      assert a + b == b;
    }
  }

  /** Filtering with predicates that agree on every element gives the same result. */
  lemma {:induction false} FilterCongruent<T(!new)>(xs: seq<T>, p: T -> bool, q: T -> bool)
    requires forall i :: 0 <= i < |xs| ==> p(xs[i]) == q(xs[i])
    ensures Filter(xs, p) == Filter(xs, q)
    decreases |xs|
  {
    if |xs| > 0 {
      FilterCongruent(xs[1..], p, q);
    }
  }

  /** A stronger predicate keeps a subsequence of what a weaker one keeps. */
  lemma {:induction false} FilterMonotone<T(!new)>(xs: seq<T>, strong: T -> bool, weak: T -> bool)
    requires forall i :: 0 <= i < |xs| && strong(xs[i]) ==> weak(xs[i])
    ensures IsSubsequence(Filter(xs, strong), Filter(xs, weak))
    decreases |xs|
  {
    if |xs| > 0 {
      FilterMonotone(xs[1..], strong, weak);
      var a := Filter(xs[1..], strong);
      var b := Filter(xs[1..], weak);
      if strong(xs[0]) {
        assert ([xs[0]] + a)[1..] == a && ([xs[0]] + b)[1..] == b;
      } else if weak(xs[0]) {
        assert ([xs[0]] + b)[1..] == b;
        if |a| > 0 {
          assert IsSubsequence(a, ([xs[0]] + b)[1..]);
        }
      }
    }
  }
}
