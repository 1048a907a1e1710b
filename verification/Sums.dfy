/** Totals of a measure over a sequence. */
module Sums {

  function Total<T>(xs: seq<T>, f: T -> int): int {
    if xs == [] then 0 else f(xs[0]) + Total(xs[1..], f)
  }

  lemma {:induction false} TotalAppend<T>(xs: seq<T>, x: T, f: T -> int)
    ensures Total(xs + [x], f) == Total(xs, f) + f(x)
  {
    if xs == [] {
      assert xs + [x] == [x];
    } else {
      assert (xs + [x])[1..] == xs[1..] + [x];
      TotalAppend(xs[1..], x, f);
    }
  }

  lemma {:induction false} TotalUpdate<T>(xs: seq<T>, i: nat, x: T, f: T -> int)
    requires i < |xs|
    ensures Total(xs[i := x], f) == Total(xs, f) - f(xs[i]) + f(x)
  {
    if i == 0 {
      assert xs[i := x][1..] == xs[1..];
    } else {
      assert xs[i := x][1..] == xs[1..][i - 1 := x];
      TotalUpdate(xs[1..], i - 1, x, f);
    }
  }

  /** A total of zeros is zero. */
  lemma {:induction false} TotalZero<T>(xs: seq<T>, f: T -> int)
    requires forall i :: 0 <= i < |xs| ==> f(xs[i]) == 0
    ensures Total(xs, f) == 0
  {
    if xs != [] {
      TotalZero(xs[1..], f);
    }
  }

  lemma {:induction false} TotalNonNegative<T>(xs: seq<T>, f: T -> int)
    requires forall i :: 0 <= i < |xs| ==> f(xs[i]) >= 0
    ensures Total(xs, f) >= 0
  {
    if xs != [] {
      TotalNonNegative(xs[1..], f);
    }
  }

  lemma {:induction false} TotalConcat<T>(a: seq<T>, b: seq<T>, f: T -> int)
    ensures Total(a + b, f) == Total(a, f) + Total(b, f)
  {
    if a == [] {
      assert a + b == b;
    } else {
      assert (a + b)[1..] == a[1..] + b;
      TotalConcat(a[1..], b, f);
    }
  }

  /** Ones up to k and zeros behind total k. */
  lemma {:induction false} TotalOfOnes<T>(xs: seq<T>, f: T -> int, k: nat)
    requires k <= |xs| && forall i :: 0 <= i < |xs| ==> f(xs[i]) == if i < k then 1 else 0
    ensures Total(xs, f) == k
  {
    if xs != [] {
      TotalOfOnes(xs[1..], f, if k > 0 then k - 1 else 0);
    }
  }

  /** A total does not depend on the order. */
  lemma {:induction false} TotalRearranged<T>(a: seq<T>, b: seq<T>, f: T -> int)
    requires multiset(a) == multiset(b)
    ensures Total(a, f) == Total(b, f)
    decreases |a|
  {
    if a == [] {
      assert |multiset(b)| == |b|;
    } else {
      assert a[0] in multiset(b);
      var i :| 0 <= i < |b| && b[i] == a[0];
      var rest := b[..i] + b[i + 1..];
      Without(b, i, f);
      Without(a, 0, f);
      assert a[..0] + a[1..] == a[1..];
      TotalRearranged(a[1..], rest, f);
    }
  }

  lemma Without<T>(xs: seq<T>, i: nat, f: T -> int)
    requires i < |xs|
    ensures var rest := xs[..i] + xs[i + 1..];
      && |rest| == |xs| - 1
      && multiset(rest) == multiset(xs) - multiset{xs[i]}
      && Total(xs, f) == f(xs[i]) + Total(rest, f)
  {
    var tail := [xs[i]] + xs[i + 1..];
    assert xs == xs[..i] + tail;
    TotalConcat(xs[..i], tail, f);
    TotalConcat(xs[..i], xs[i + 1..], f);
    assert tail[1..] == xs[i + 1..];
  }
}
