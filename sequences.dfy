/**
 Generic sequence operations that the stores and screens use the way the
 source uses `Array.prototype.map` and `Array.prototype.filter`, and the
 notion of an order-preserving subsequence that states what `filter` keeps.
 */
module Sequences {

  /** `xs` is obtained from `ys` by deleting elements, keeping the order of the rest. */
  predicate Subsequence<T(==)>(xs: seq<T>, ys: seq<T>)
    decreases |ys|
  {
    if ys == [] then xs == []
    else (xs != [] && xs[0] == ys[0] && Subsequence(xs[1..], ys[1..])) || Subsequence(xs, ys[1..])
  }

  /** Every sequence is a subsequence of itself. */
  lemma {:induction false} SubsequenceRefl<T>(xs: seq<T>)
    ensures Subsequence(xs, xs)
    decreases |xs|
  {
    if xs != [] {
      SubsequenceRefl(xs[1..]);
    }
  }

  /** A subsequence is never longer than the sequence it is taken from. */
  lemma {:induction false} SubsequenceLength<T>(xs: seq<T>, ys: seq<T>)
    requires Subsequence(xs, ys)
    ensures |xs| <= |ys|
    decreases |ys|
  {
    if ys != [] {
      if xs != [] && xs[0] == ys[0] && Subsequence(xs[1..], ys[1..]) {
        SubsequenceLength(xs[1..], ys[1..]);
      } else {
        SubsequenceLength(xs, ys[1..]);
      }
    }
  }

  /** `xs.map(f)`: same length, element `i` is `f(xs[i])`. */
  function Map<T, U>(xs: seq<T>, f: T -> U): (r: seq<U>)
    ensures |r| == |xs|
    ensures forall i :: 0 <= i < |xs| ==> r[i] == f(xs[i])
    decreases |xs|
  {
    if xs == [] then [] else [f(xs[0])] + Map(xs[1..], f)
  }

  /** `xs.filter(p)`: exactly the elements satisfying `p`, in their original order. */
  function Filter<T(==,!new)>(xs: seq<T>, p: T -> bool): (r: seq<T>)
    ensures forall x :: x in r <==> x in xs && p(x)
    ensures Subsequence(r, xs)
    ensures (forall x :: x in xs ==> p(x)) ==> r == xs
    decreases |xs|
  {
    if xs == [] then []
    else if p(xs[0]) then [xs[0]] + Filter(xs[1..], p)
    else Filter(xs[1..], p)
  }

  /** Filtering distributes over concatenation, so the relative order of survivors is that of the input. */
  lemma {:induction false} FilterConcat<T(!new)>(xs: seq<T>, ys: seq<T>, p: T -> bool)
    ensures Filter(xs + ys, p) == Filter(xs, p) + Filter(ys, p)
    decreases |xs|
  {
    if xs == [] {
      assert xs + ys == ys;
    } else {
      assert (xs + ys)[1..] == xs[1..] + ys;
      FilterConcat(xs[1..], ys, p);
    }
  }

  /** Filtering with a predicate that fails exactly at index `i` drops that one element. */
  lemma {:induction false} FilterDropsOne<T(!new)>(xs: seq<T>, p: T -> bool, i: int)
    requires 0 <= i < |xs|
    requires !p(xs[i])
    requires forall j :: 0 <= j < |xs| && j != i ==> p(xs[j])
    ensures Filter(xs, p) == xs[..i] + xs[i + 1..]
    decreases |xs|
  {
    if i == 0 {
      forall x | x in xs[1..] ensures p(x) {
        var j :| 0 <= j < |xs[1..]| && xs[1..][j] == x;
        assert xs[j + 1] == x;
      }
    } else {
      forall j | 0 <= j < |xs[1..]| && j != i - 1 ensures p(xs[1..][j]) {
        assert xs[1..][j] == xs[j + 1];
      }
      FilterDropsOne(xs[1..], p, i - 1);
      assert xs[..i] + xs[i + 1..] == [xs[0]] + (xs[1..][..i - 1] + xs[1..][i..]);
    }
  }

  /** Filtering keeps every copy of an element that satisfies the predicate, and no copy of one that does not. */
  lemma {:induction false} FilterCounts<T(!new)>(xs: seq<T>, p: T -> bool, x: T)
    ensures multiset(Filter(xs, p))[x] == if p(x) then multiset(xs)[x] else 0
    decreases |xs|
  {
    if xs != [] {
      FilterCounts(xs[1..], p, x);
      assert xs == [xs[0]] + xs[1..];
      assert multiset(xs) == multiset([xs[0]]) + multiset(xs[1..]);
      if p(xs[0]) {
        assert multiset(Filter(xs, p)) == multiset([xs[0]]) + multiset(Filter(xs[1..], p));
      }
    }
  }
}
