/** Sequence combinators in the shape of JavaScript's `Array.prototype.map`, `filter`
    and a `forEach` that pushes every element's results onto one array. Their lemmas are
    stated once here, for any element type and any function. */
module Seqs {

  /** `xs.map(f)`. */
  function Map<T, U>(xs: seq<T>, f: T -> U): (ys: seq<U>)
    ensures |ys| == |xs|
    ensures forall k :: 0 <= k < |xs| ==> ys[k] == f(xs[k])
  {
    seq(|xs|, k requires 0 <= k < |xs| => f(xs[k]))
  }

  /** `xs.filter(p)`: the elements that satisfy `p`, in order. */
  function Filter<T>(xs: seq<T>, p: T -> bool): (ys: seq<T>)
    ensures |ys| <= |xs|
  {
    if xs == [] then [] else (if p(xs[0]) then [xs[0]] else []) + Filter(xs[1..], p)
  }

  /** The results of `f` on each element, concatenated in order: an accumulator that
      starts empty and has `f(x)` pushed for each `x`. */
  function FlatMap<T, U>(xs: seq<T>, f: T -> seq<U>): seq<U>
  {
    if xs == [] then [] else FlatMap(xs[..|xs| - 1], f) + f(xs[|xs| - 1])
  }

  /** Everything `Filter` keeps satisfies the test, and comes from the input. */
  lemma {:induction false} FilterSatisfies<T>(xs: seq<T>, p: T -> bool)
    ensures forall i :: 0 <= i < |Filter(xs, p)| ==> p(Filter(xs, p)[i]) && Filter(xs, p)[i] in xs
  {
    if xs != [] {
      FilterSatisfies(xs[1..], p);
    }
  }

  /** `Filter` keeps every element that satisfies the test, so it drops nothing else. */
  lemma {:induction false} FilterKeepsAll<T>(xs: seq<T>, p: T -> bool)
    requires forall k :: 0 <= k < |xs| ==> p(xs[k])
    ensures Filter(xs, p) == xs
  {
    if xs != [] {
      FilterKeepsAll(xs[1..], p);
      assert [xs[0]] + xs[1..] == xs;
    }
  }

  /** `Filter` gives nothing exactly when no element satisfies the test. */
  lemma {:induction false} FilterEmptyIff<T>(xs: seq<T>, p: T -> bool)
    ensures Filter(xs, p) == [] <==> forall k :: 0 <= k < |xs| ==> !p(xs[k])
  {
    if xs != [] {
      FilterEmptyIff(xs[1..], p);
      if forall k :: 0 <= k < |xs[1..]| ==> !p(xs[1..][k]) {
        if !p(xs[0]) {
          forall k | 0 <= k < |xs| ensures !p(xs[k]) {
            if k > 0 { assert xs[k] == xs[1..][k - 1]; }
          }
        }
      } else {
        var k :| 0 <= k < |xs[1..]| && p(xs[1..][k]);
        assert p(xs[k + 1]);
      }
    }
  }

  lemma {:induction false} FilterAppend<T>(xs: seq<T>, ys: seq<T>, p: T -> bool)
    ensures Filter(xs + ys, p) == Filter(xs, p) + Filter(ys, p)
  {
    if xs == [] {
      assert xs + ys == ys;
    } else {
      var head := if p(xs[0]) then [xs[0]] else [];
      assert (xs + ys)[0] == xs[0];
      assert (xs + ys)[1..] == xs[1..] + ys;
      FilterAppend(xs[1..], ys, p);
      assert Filter(xs + ys, p) == head + (Filter(xs[1..], p) + Filter(ys, p));
      assert head + (Filter(xs[1..], p) + Filter(ys, p)) == (head + Filter(xs[1..], p)) + Filter(ys, p);
    }
  }

  lemma FlatMapLast<T, U>(xs: seq<T>, x: T, f: T -> seq<U>)
    ensures FlatMap(xs + [x], f) == FlatMap(xs, f) + f(x)
  {
    assert (xs + [x])[..|xs|] == xs;
  }

  /** The results for a longer input are those of its front followed by those of the
      rest: nothing is reordered. */
  lemma {:induction false} FlatMapAppend<T, U>(xs: seq<T>, ys: seq<T>, f: T -> seq<U>)
    ensures FlatMap(xs + ys, f) == FlatMap(xs, f) + FlatMap(ys, f)
    decreases |ys|
  {
    if ys == [] {
      assert xs + ys == xs;
    } else {
      var front, last := ys[..|ys| - 1], ys[|ys| - 1];
      assert xs + ys == (xs + front) + [last];
      assert ys == front + [last];
      FlatMapLast(xs + front, last, f);
      FlatMapLast(front, last, f);
      FlatMapAppend(xs, front, f);
      assert (FlatMap(xs, f) + FlatMap(front, f)) + f(last)
          == FlatMap(xs, f) + (FlatMap(front, f) + f(last));
    }
  }

  /** Every result comes from the result of some element. */
  lemma {:induction false} FlatMapFrom<T, U>(xs: seq<T>, f: T -> seq<U>, i: nat)
    requires i < |FlatMap(xs, f)|
    ensures exists k, j :: 0 <= k < |xs| && 0 <= j < |f(xs[k])| && FlatMap(xs, f)[i] == f(xs[k])[j]
  {
    var front := FlatMap(xs[..|xs| - 1], f);
    var last := xs[|xs| - 1];
    if i < |front| {
      FlatMapFrom(xs[..|xs| - 1], f, i);
      var k, j :| 0 <= k < |xs[..|xs| - 1]| && 0 <= j < |f(xs[..|xs| - 1][k])|
        && front[i] == f(xs[..|xs| - 1][k])[j];
      assert xs[..|xs| - 1][k] == xs[k];
    } else {
      assert FlatMap(xs, f)[i] == f(xs[|xs| - 1])[i - |front|];
    }
  }

  /** `FlatMap` gives nothing when no element gives anything. */
  lemma {:induction false} FlatMapEmpty<T, U>(xs: seq<T>, f: T -> seq<U>)
    requires forall k :: 0 <= k < |xs| ==> f(xs[k]) == []
    ensures FlatMap(xs, f) == []
  {
    if xs != [] {
      FlatMapEmpty(xs[..|xs| - 1], f);
    }
  }

  lemma FlatMapOne<T, U>(a: T, f: T -> seq<U>)
    ensures FlatMap([a], f) == f(a)
  {
    FlatMapLast([], a, f);
    assert [] + [a] == [a];
  }

  lemma FlatMapTwo<T, U>(a: T, b: T, f: T -> seq<U>)
    ensures FlatMap([a, b], f) == f(a) + f(b)
  {
    FlatMapOne(a, f);
    FlatMapLast([a], b, f);
    assert [a] + [b] == [a, b];
  }

  /** When each element gives exactly one result, `FlatMap` gives those results in order. */
  lemma {:induction false} FlatMapOneEach<T, U>(xs: seq<T>, f: T -> seq<U>, ys: seq<U>)
    requires |xs| == |ys|
    requires forall k :: 0 <= k < |xs| ==> f(xs[k]) == [ys[k]]
    ensures FlatMap(xs, f) == ys
  {
    if xs != [] {
      var n := |xs| - 1;
      FlatMapOneEach(xs[..n], f, ys[..n]);
      assert ys[..n] + [ys[n]] == ys;
    }
  }
}
