/** The one order every list of the memory package is sorted by: a number descending, then a
    string ascending. Statistics use (attempts, label), notes use (creation time, id). */
module Ranking {
  import opened Text

  datatype Rank = Rank(number: int, text: string)

  predicate Before(a: Rank, b: Rank) {
    a.number > b.number || (a.number == b.number && Less(a.text, b.text))
  }

  /** Before is a strict total order. */
  lemma BeforeStrictTotal(a: Rank, b: Rank, c: Rank)
    ensures !Before(a, a)
    ensures Before(a, b) ==> !Before(b, a)
    ensures a != b ==> Before(a, b) || Before(b, a)
    ensures Before(a, b) && Before(b, c) ==> Before(a, c)
  {
    LessIrreflexive(a.text);
    if a.text != b.text {
      LessConnected(a.text, b.text);
    }
    if Less(a.text, b.text) && Less(b.text, a.text) {
      LessTransitive(a.text, b.text, a.text);
    }
    if Less(a.text, b.text) && Less(b.text, c.text) {
      LessTransitive(a.text, b.text, c.text);
    }
  }

  /** Strictly in rank order: no two elements share a rank. */
  ghost predicate Ranked<T>(s: seq<T>, rank: T -> Rank) {
    forall i, j :: 0 <= i < j < |s| ==> Before(rank(s[i]), rank(s[j]))
  }

  /** In rank order; elements of equal rank may stand in any order. */
  ghost predicate WeaklyRanked<T>(s: seq<T>, rank: T -> Rank) {
    forall i, j :: 0 <= i < j < |s| ==> !Before(rank(s[j]), rank(s[i]))
  }

  /** Elements that share a rank are equal. */
  ghost predicate RankDetermines<T(!new)>(s: seq<T>, rank: T -> Rank) {
    forall x, y :: x in s && y in s && rank(x) == rank(y) ==> x == y
  }

  lemma RankedDistinct<T>(s: seq<T>, rank: T -> Rank)
    requires Ranked(s, rank)
    ensures forall i, j :: 0 <= i < j < |s| ==> s[i] != s[j]
  {
    forall i, j | 0 <= i < j < |s| ensures s[i] != s[j] {
      BeforeStrictTotal(rank(s[i]), rank(s[j]), rank(s[j]));
    }
  }

  lemma HasHead<T>(s: seq<T>)
    ensures s != [] ==> exists x :: x in s
  {
    if s != [] {
      assert s[0] in s;
    }
  }

  /** A strictly ranked list is determined by the elements in it. */
  lemma {:induction false} RankedUnique<T(!new)>(s: seq<T>, t: seq<T>, rank: T -> Rank)
    requires Ranked(s, rank) && Ranked(t, rank)
    requires forall x :: x in s <==> x in t
    ensures s == t
  {
    if s == [] || t == [] {
      HasHead(s);
      HasHead(t);
    } else {
      assert s[0] in t;
      assert t[0] in s;
      var i :| 0 <= i < |t| && t[i] == s[0];
      var j :| 0 <= j < |s| && s[j] == t[0];
      BeforeStrictTotal(rank(s[0]), rank(t[0]), rank(t[0]));
      assert s[0] == t[0];
      RankedDistinct(s, rank);
      RankedDistinct(t, rank);
      forall x ensures x in s[1..] <==> x in t[1..] {
        if x in s[1..] { assert x in s && x != s[0]; assert x in t; }
        if x in t[1..] { assert x in t && x != t[0]; assert x in s; }
      }
      RankedUnique(s[1..], t[1..], rank);
      assert s == [s[0]] + s[1..] && t == [t[0]] + t[1..];
    }
  }

  /** A ranked arrangement of a bag of elements is unique when a rank determines its element. */
  lemma {:induction false} WeaklyRankedUnique<T(!new)>(s: seq<T>, t: seq<T>, rank: T -> Rank)
    requires WeaklyRanked(s, rank) && WeaklyRanked(t, rank)
    requires multiset(s) == multiset(t)
    requires RankDetermines(s, rank)
    ensures s == t
  {
    if s == [] {
      assert |multiset(t)| == |t|;
    } else {
      assert |multiset(s)| == |s| && |multiset(t)| == |t|;
      HeadsMeet(s, t, rank);
      SameTail(s, t);
      WeaklyRankedUnique(s[1..], t[1..], rank);
      assert s == [s[0]] + s[1..] && t == [t[0]] + t[1..];
    }
  }

  lemma HeadsMeet<T(!new)>(s: seq<T>, t: seq<T>, rank: T -> Rank)
    requires s != [] && t != []
    requires WeaklyRanked(s, rank) && WeaklyRanked(t, rank)
    requires multiset(s) == multiset(t)
    requires RankDetermines(s, rank)
    ensures s[0] == t[0]
  {
    assert s[0] in multiset(t) && t[0] in multiset(s);
    var i :| 0 <= i < |t| && t[i] == s[0];
    var j :| 0 <= j < |s| && s[j] == t[0];
    BeforeStrictTotal(rank(s[0]), rank(t[0]), rank(t[0]));
    assert i > 0 ==> !Before(rank(t[i]), rank(t[0]));
    assert j > 0 ==> !Before(rank(s[j]), rank(s[0]));
  }

  lemma SameTail<T>(s: seq<T>, t: seq<T>)
    requires s != [] && t != [] && s[0] == t[0]
    requires multiset(s) == multiset(t)
    ensures multiset(s[1..]) == multiset(t[1..])
  {
    assert s == [s[0]] + s[1..] && t == [t[0]] + t[1..];
    assert multiset(s[1..]) == multiset(s) - multiset{s[0]};
    assert multiset(t[1..]) == multiset(t) - multiset{t[0]};
  }

  /** Stands for sort.Slice and sort.SliceStable with the Before comparator: some ranked
      arrangement of the same elements. */
  method Sort<T>(s: seq<T>, rank: T -> Rank) returns (r: seq<T>)
    ensures WeaklyRanked(r, rank)
    ensures multiset(r) == multiset(s)
  {
    r := [];
    for n := 0 to |s|
      invariant WeaklyRanked(r, rank)
      invariant multiset(r) == multiset(s[..n])
    {
      r := Insert(r, s[n], rank);
      assert s[..n + 1] == s[..n] + [s[n]];
    }
    assert s[..|s|] == s;
  }

  method Insert<T>(s: seq<T>, x: T, rank: T -> Rank) returns (r: seq<T>)
    requires WeaklyRanked(s, rank)
    ensures WeaklyRanked(r, rank)
    ensures multiset(r) == multiset(s) + multiset{x}
  {
    var k := |s|;
    while k > 0 && Before(rank(x), rank(s[k - 1]))
      invariant 0 <= k <= |s|
      invariant forall i :: k <= i < |s| ==> Before(rank(x), rank(s[i]))
    {
      k := k - 1;
    }
    r := s[..k] + [x] + s[k..];
    InsertedBag(s, x, k);
    InsertedRanked(s, x, k, rank);
  }

  lemma InsertedBag<T>(s: seq<T>, x: T, k: nat)
    requires k <= |s|
    ensures multiset(s[..k] + [x] + s[k..]) == multiset(s) + multiset{x}
  {
    assert s == s[..k] + s[k..];
  }

  lemma InsertedRanked<T>(s: seq<T>, x: T, k: nat, rank: T -> Rank)
    requires WeaklyRanked(s, rank)
    requires k <= |s|
    requires k > 0 ==> !Before(rank(x), rank(s[k - 1]))
    requires forall i :: k <= i < |s| ==> Before(rank(x), rank(s[i]))
    ensures WeaklyRanked(s[..k] + [x] + s[k..], rank)
  {
    var r := s[..k] + [x] + s[k..];
    forall i, j | 0 <= i < j < |r| ensures !Before(rank(r[j]), rank(r[i])) {
      if i < k && j == k {
        if i < k - 1 {
          BeforeStrictTotal(rank(x), rank(s[i]), rank(s[k - 1]));
          BeforeStrictTotal(rank(s[i]), rank(s[k - 1]), rank(x));
          BeforeStrictTotal(rank(s[k - 1]), rank(x), rank(s[i]));
        }
      } else if i == k {
        BeforeStrictTotal(rank(x), rank(r[j]), rank(x));
      } else {
        assert r[i] == if i < k then s[i] else s[i - 1];
        assert r[j] == if j < k then s[j] else s[j - 1];
      }
    }
  }
}
