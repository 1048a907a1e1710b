/** Blanks, trimming and the string order the backend relies on.
    A string is the sequence of its characters; Go compares strings byte by byte, which for
    well-formed UTF-8 is the order of the characters. */
module Text {

  /** The characters Go's unicode.IsSpace accepts. */
  predicate IsSpace(c: char) {
    || '\t' <= c <= '\r' || c == ' ' || c == '\U{0085}' || c == '\U{00A0}' || c == '\U{1680}'
    || '\U{2000}' <= c <= '\U{200A}' || c == '\U{2028}' || c == '\U{2029}'
    || c == '\U{202F}' || c == '\U{205F}' || c == '\U{3000}'
  }

  predicate Blank(s: string) {
    forall i :: 0 <= i < |s| ==> IsSpace(s[i])
  }

  function TrimLeft(s: string): string {
    if s == "" || !IsSpace(s[0]) then s else TrimLeft(s[1..])
  }

  function TrimRight(s: string): string {
    if s == "" || !IsSpace(s[|s| - 1]) then s else TrimRight(s[..|s| - 1])
  }

  /** Go's strings.TrimSpace. */
  function Trim(s: string): string {
    TrimRight(TrimLeft(s))
  }

  /** Trimming leaves nothing exactly of a blank string. */
  lemma {:induction false} BlankTrims(s: string)
    ensures Trim(s) == "" <==> Blank(s)
  {
    LeftOfBlank(s);
    RightOfBlank(TrimLeft(s));
  }

  lemma {:induction false} LeftOfBlank(s: string)
    ensures TrimLeft(s) == "" <==> Blank(s)
    ensures Blank(TrimLeft(s)) ==> TrimLeft(s) == ""
  {
    if s != "" {
      assert s == [s[0]] + s[1..];
      LeftOfBlank(s[1..]);
    }
  }

  lemma {:induction false} RightOfBlank(s: string)
    ensures TrimRight(s) == "" <==> Blank(s)
  {
    if s != "" {
      assert s == s[..|s| - 1] + [s[|s| - 1]];
      RightOfBlank(s[..|s| - 1]);
    }
  }

  /** Trimming takes away the blanks at both ends, and nothing else. */
  lemma {:induction false} TrimIs(s: string) returns (i: nat, j: nat)
    ensures i <= j <= |s| && Trim(s) == s[i..j]
    ensures Blank(s[..i]) && Blank(s[j..])
    ensures i < j ==> !IsSpace(s[i]) && !IsSpace(s[j - 1])
  {
    i := LeftIs(s);
    j := RightIs(s[i..]);
    assert s[i..][..j] == s[i..i + j];
    j := i + j;
    assert s[j..] == s[i..][j - i..];
  }

  lemma {:induction false} LeftIs(s: string) returns (i: nat)
    ensures i <= |s| && TrimLeft(s) == s[i..] && Blank(s[..i]) && (i < |s| ==> !IsSpace(s[i]))
  {
    i := 0;
    if s != "" && IsSpace(s[0]) {
      i := LeftIs(s[1..]);
      assert s[1..][i..] == s[i + 1..];
      assert forall k :: 1 <= k <= i ==> s[k] == s[1..][..i][k - 1];
      i := i + 1;
    }
  }

  lemma {:induction false} RightIs(s: string) returns (j: nat)
    ensures j <= |s| && TrimRight(s) == s[..j] && Blank(s[j..]) && (j > 0 ==> !IsSpace(s[j - 1]))
  {
    j := |s|;
    if s != "" && IsSpace(s[|s| - 1]) {
      var front := s[..|s| - 1];
      j := RightIs(front);
      assert front[..j] == s[..j];
      assert forall k :: j <= k < |front| ==> s[k] == front[j..][k - j];
    }
  }

  /** Nothing is trimmed from a string that neither starts nor ends with a blank. */
  lemma TrimSolid(s: string)
    ensures s == "" || (!IsSpace(s[0]) && !IsSpace(s[|s| - 1])) ==> Trim(s) == s
  {
  }

  /** Go's len of a string: the bytes of its UTF-8 encoding. */
  function ByteLength(s: string): nat {
    if s == "" then 0
    else (if s[0] < '\U{0080}' then 1 else if s[0] < '\U{0800}' then 2 else if s[0] < '\U{10000}' then 3 else 4)
         + ByteLength(s[1..])
  }

  /** How many characters come before the first `c`. */
  function Until(s: string, c: char): (k: nat)
    ensures k <= |s| && c !in s[..k] && (k < |s| ==> s[k] == c)
  {
    if s == "" || s[0] == c then 0 else 1 + Until(s[1..], c)
  }

  lemma {:induction false} UntilIs(s: string, c: char, k: nat)
    requires k <= |s| && c !in s[..k] && (k < |s| ==> s[k] == c)
    ensures Until(s, c) == k
  {
    if k > 0 {
      assert s[..k] == [s[0]] + s[1..][..k - 1];
      UntilIs(s[1..], c, k - 1);
    }
  }

  /** The lexicographic order on strings: Go's `<`. */
  predicate Less(a: string, b: string) {
    b != "" && (a == "" || a[0] < b[0] || (a[0] == b[0] && Less(a[1..], b[1..])))
  }

  lemma {:induction false} LessTransitive(a: string, b: string, c: string)
    requires Less(a, b) && Less(b, c)
    ensures Less(a, c)
  {
    if a != "" && a[0] == b[0] && b[0] == c[0] {
      LessTransitive(a[1..], b[1..], c[1..]);
    }
  }

  lemma {:induction false} LessIrreflexive(a: string)
    ensures !Less(a, a)
  {
    if a != "" {
      LessIrreflexive(a[1..]);
    }
  }

  lemma {:induction false} LessConnected(a: string, b: string)
    requires a != b
    ensures Less(a, b) || Less(b, a)
  {
    if a != "" && b != "" && a[0] == b[0] {
      assert a == [a[0]] + a[1..] && b == [b[0]] + b[1..];
      LessConnected(a[1..], b[1..]);
    }
  }

  /** It says what it should: one string is a beginning of the other, or they first differ where it has the
      smaller character. */
  lemma {:induction false} LessIff(a: string, b: string)
    ensures Less(a, b) <==> exists k :: FirstSmaller(a, b, k)
  {
    if Less(a, b) {
      if a != "" && a[0] == b[0] {
        LessIff(a[1..], b[1..]);
        var k :| FirstSmaller(a[1..], b[1..], k);
        assert FirstSmaller(a, b, k + 1);
      } else {
        assert FirstSmaller(a, b, 0);
      }
    }
    if k :| FirstSmaller(a, b, k) {
      if k > 0 {
        assert a[0] == a[..k][0] == b[..k][0] == b[0];
        assert a[1..][..k - 1] == a[..k][1..] && b[1..][..k - 1] == b[..k][1..];
        assert FirstSmaller(a[1..], b[1..], k - 1);
        LessIff(a[1..], b[1..]);
      }
    }
  }

  predicate FirstSmaller(a: string, b: string, k: int) {
    0 <= k <= |a| && k < |b| && a[..k] == b[..k] && (k < |a| ==> a[k] < b[k])
  }

  /** The blanks by their numbers. */
  lemma BlanksAre(c: char)
    ensures IsSpace(c) <==> c as int in {
      9, 10, 11, 12, 13, 32, 133, 160, 5760, 8192, 8193, 8194, 8195, 8196, 8197, 8198, 8199, 8200, 8201, 8202,
      8232, 8233, 8239, 8287, 12288}
  {
  }
}
