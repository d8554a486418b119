/** Sequence helpers for JavaScript's `filter`, `reduce` sums and repeated pushes. */
module Seqs {

  /** `xs.reduce((sum, x) => sum + x, 0)`. */
  function Sum(xs: seq<real>): real {
    if xs == [] then 0.0 else xs[0] + Sum(xs[1..])
  }

  lemma {:induction false} SumConcat(a: seq<real>, b: seq<real>)
    ensures Sum(a + b) == Sum(a) + Sum(b)
  {
    if a == [] {
      assert a + b == b;
    } else {
      assert (a + b)[1..] == a[1..] + b;
      SumConcat(a[1..], b);
    }
  }

  /** The sum does not depend on the order of the summands. */
  lemma {:induction false} SumPermutation(a: seq<real>, b: seq<real>)
    requires multiset(a) == multiset(b)
    ensures Sum(a) == Sum(b)
    decreases |a|
  {
    if a != [] {
      var x := a[0];
      assert x in multiset(b);
      var i :| 0 <= i < |b| && b[i] == x;
      var rest := b[..i] + b[i + 1..];
      assert b == b[..i] + [x] + b[i + 1..];
      assert a == [x] + a[1..];
      assert multiset(a) == multiset{x} + multiset(a[1..]);
      assert multiset(b) == multiset(b[..i]) + multiset{x} + multiset(b[i + 1..]);
      assert multiset(rest) == multiset(b[..i]) + multiset(b[i + 1..]);
      assert multiset(a[1..]) == multiset(a) - multiset{x};
      assert multiset(rest) == multiset(b) - multiset{x};
      SumPermutation(a[1..], rest);
      SumConcat(b[..i] + [x], b[i + 1..]);
      SumConcat(b[..i], [x]);
      SumConcat(b[..i], b[i + 1..]);
    } else {
      assert |b| == |multiset(b)| == 0;
    }
  }

  /** `xs.reduce((sum, x) => sum + f(x), 0)`. */
  function SumBy<T>(xs: seq<T>, f: T -> real): real {
    if xs == [] then 0.0 else f(xs[0]) + SumBy(xs[1..], f)
  }

  /** Every summand non-negative gives a non-negative sum. */
  lemma {:induction false} SumByNonNegative<T>(xs: seq<T>, f: T -> real)
    requires forall i :: 0 <= i < |xs| ==> f(xs[i]) >= 0.0
    ensures SumBy(xs, f) >= 0.0
  {
    if xs != [] {
      SumByNonNegative(xs[1..], f);
    }
  }

  /** `s` keeps some of the elements of `t`, in their order. */
  predicate IsSubsequence<T(==)>(s: seq<T>, t: seq<T>)
    decreases |t|
  {
    if s == [] then true
    else if t == [] then false
    else if s[0] == t[0] then IsSubsequence(s[1..], t[1..])
    else IsSubsequence(s, t[1..])
  }

  /** `xs.filter(p)`: the elements that satisfy `p`, in their original order. */
  function Filter<T(==)>(xs: seq<T>, p: T -> bool): (r: seq<T>)
    ensures |r| <= |xs|
    ensures forall i :: 0 <= i < |r| ==> r[i] in xs && p(r[i])
    ensures forall i :: 0 <= i < |xs| && p(xs[i]) ==> xs[i] in r
    ensures IsSubsequence(r, xs)
  {
    if xs == [] then []
    else if p(xs[0]) then
      var r := [xs[0]] + Filter(xs[1..], p);
      assert r[1..] == Filter(xs[1..], p);
      r
    else Filter(xs[1..], p)
  }

  /** Filtering by a condition that every element meets keeps the whole sequence. */
  lemma {:induction false} FilterAll<T>(xs: seq<T>, p: T -> bool)
    requires forall i :: 0 <= i < |xs| ==> p(xs[i])
    ensures Filter(xs, p) == xs
  {
    if xs != [] {
      FilterAll(xs[1..], p);
    }
  }

  /** Filtering twice by the same condition is filtering once. */
  lemma FilterIdempotent<T>(xs: seq<T>, p: T -> bool)
    ensures Filter(Filter(xs, p), p) == Filter(xs, p)
  {
    FilterAll(Filter(xs, p), p);
  }

  /** A filter and its complement split a sum into the part one keeps and the part the
      other keeps. */
  lemma {:induction false} SumByFilterSplit<T>(xs: seq<T>, f: T -> real, p: T -> bool, q: T -> bool)
    requires forall x :: q(x) == !p(x)
    ensures SumBy(xs, f) == SumBy(Filter(xs, p), f) + SumBy(Filter(xs, q), f)
  {
    if xs != [] {
      SumByFilterSplit(xs[1..], f, p, q);
      if p(xs[0]) {
        var r := [xs[0]] + Filter(xs[1..], p);
        assert r[0] == xs[0] && r[1..] == Filter(xs[1..], p);
      } else {
        var r := [xs[0]] + Filter(xs[1..], q);
        assert r[0] == xs[0] && r[1..] == Filter(xs[1..], q);
      }
    }
  }

  /** `n` copies of `x`; a negative count gives none, as a `for (i = 0; i < n; i++)` loop does. */
  function Repeat<T>(x: T, n: int): (r: seq<T>)
    ensures |r| == (if n < 0 then 0 else n)
    ensures forall i :: 0 <= i < |r| ==> r[i] == x
  {
    if n <= 0 then [] else Repeat(x, n - 1) + [x]
  }
}
