/** Facts about sequences that the proofs name instead of leaving to search. */
module Sequences {
  lemma Regroup<T>(a: seq<T>, x: T, b: seq<T>)
    ensures a + ([x] + b) == (a + [x]) + b
  {
  }

  lemma Associate<T>(a: seq<T>, b: seq<T>, c: seq<T>)
    ensures a + (b + c) == (a + b) + c
  {
  }

  lemma SplitLast<T>(s: seq<T>)
    requires s != []
    ensures s == s[..|s| - 1] + [s[|s| - 1]]
  {
  }

  /** A suffix, one element further. */
  lemma Advance<T>(s: seq<T>, i: nat)
    requires i < |s|
    ensures s[i..][0] == s[i] && s[i..][1..] == s[i + 1..]
    ensures s[..i] + [s[i]] == s[..i + 1]
  {
  }

  lemma PrependPrefix<T>(s: seq<T>, n: nat, rest: seq<T>)
    requires 0 < n <= |s|
    ensures [s[0]] + (s[1..][..n - 1] + rest) == s[..n] + rest
  {
  }

  lemma Parts<T>(a: seq<T>, b: seq<T>, c: seq<T>, d: seq<T>)
    ensures var x := a + b + c + d;
      && x[..|a|] == a && x[|a|..|a| + |b|] == b && x[|a| + |b|..|a| + |b| + |c|] == c
      && x[|a| + |b| + |c|..] == d && x[..|a| + |b|] == a + b
  {
  }

  /** s[:n], or all of it. */
  function FirstOf<T>(s: seq<T>, n: nat): seq<T> {
    if |s| > n then s[..n] else s
  }
}
