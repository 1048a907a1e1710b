/** Composite map keys: identifiers joined by a NUL character, as every in-memory store builds them. */
module Keys {

  const NUL: char := '\U{0000}'

  function Join(parts: seq<string>): string
    requires parts != []
  {
    if |parts| == 1 then parts[0] else parts[0] + [NUL] + Join(parts[1..])
  }

  predicate NulFree(s: string) {
    NUL !in s
  }

  /** A joined key determines its parts when no part before the last holds a NUL. */
  lemma {:induction false} JoinInjective(a: seq<string>, b: seq<string>)
    requires |a| == |b| > 0
    requires forall i :: 0 <= i < |a| - 1 ==> NulFree(a[i]) && NulFree(b[i])
    ensures Join(a) == Join(b) <==> a == b
  {
    if |a| > 1 && Join(a) == Join(b) {
      FirstPart(a[0], Join(a[1..]), b[0], Join(b[1..]));
      JoinInjective(a[1..], b[1..]);
      assert a == [a[0]] + a[1..] && b == [b[0]] + b[1..];
    }
  }

  lemma FirstPart(p: string, x: string, q: string, y: string)
    requires NulFree(p) && NulFree(q)
    requires p + [NUL] + x == q + [NUL] + y
    ensures p == q && x == y
  {
    var s, t := p + [NUL] + x, q + [NUL] + y;
    assert s[|p|] == NUL && t[|q|] == NUL;
    assert p == s[..|p|] && q == t[..|q|];
    assert x == s[|p| + 1..] && y == t[|q| + 1..];
  }

  /** The condition is needed at every identity: a NUL in any part before the last gives it a second identity
      with the same key, in which that part ends at the NUL. */
  lemma {:induction false} JoinCollision(a: seq<string>, i: nat) returns (b: seq<string>)
    requires i + 1 < |a| && !NulFree(a[i])
    ensures |b| == |a| && b != a && Join(b) == Join(a)
  {
    if i == 0 {
      var k :| 0 <= k < |a[0]| && a[0][k] == NUL;
      var p, q := a[0][..k], a[0][k + 1..];
      b := [p, q + [NUL] + a[1]] + a[2..];
      assert a[0] == p + [NUL] + q;
      assert a[1..] == [a[1]] + a[2..] && b[1..] == [q + [NUL] + a[1]] + a[2..];
      JoinLonger(q, a[1], a[2..]);
      assert p + [NUL] + (q + [NUL] + Join(a[1..])) == (p + [NUL] + q) + [NUL] + Join(a[1..]);
      assert b[0] == p && |p| < |a[0]|;
    } else {
      var rest := JoinCollision(a[1..], i - 1);
      b := [a[0]] + rest;
      assert b[1..] == rest && a == [a[0]] + a[1..];
    }
  }

  lemma JoinLonger(q: string, r: string, rest: seq<string>)
    ensures Join([q + [NUL] + r] + rest) == q + [NUL] + Join([r] + rest)
  {
    if rest != [] {
      assert ([q + [NUL] + r] + rest)[1..] == rest && ([r] + rest)[1..] == rest;
      assert (q + [NUL] + r) + [NUL] + Join(rest) == q + [NUL] + (r + [NUL] + Join(rest));
    }
  }
}
