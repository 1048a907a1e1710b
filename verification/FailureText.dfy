/** Failure messages shown to a learner are cut to 2048 bytes without cutting a character in two. */
module FailureText {
  import opened Text

  type Byte = b: int | 0 <= b < 256

  const MAX_REVEALED: nat := 2048

  /** "... [truncated]" */
  const SUFFIX: seq<Byte> :=
    [0x2E, 0x2E, 0x2E, 0x20, 0x5B, 0x74, 0x72, 0x75, 0x6E, 0x63, 0x61, 0x74, 0x65, 0x64, 0x5D]

  const ROOM: nat := 2033

  predicate Tail(b: Byte) { 0x80 <= b <= 0xBF }

  /** The second byte of a three-byte character, section 4 of RFC 3629. */
  predicate SecondOfThree(a: Byte, b: Byte) {
    if a == 0xE0 then 0xA0 <= b <= 0xBF else if a == 0xED then 0x80 <= b <= 0x9F else 0xE1 <= a <= 0xEF && Tail(b)
  }

  predicate SecondOfFour(a: Byte, b: Byte) {
    if a == 0xF0 then 0x90 <= b <= 0xBF else if a == 0xF4 then 0x80 <= b <= 0x8F else 0xF1 <= a <= 0xF3 && Tail(b)
  }

  /** The number of bytes of the well-formed character that `s` starts with, 0 if there is none. */
  function Width(s: seq<Byte>): (w: nat)
    ensures w <= 4 && w <= |s|
  {
    if |s| >= 1 && s[0] <= 0x7F then 1
    else if |s| >= 2 && 0xC2 <= s[0] <= 0xDF && Tail(s[1]) then 2
    else if |s| >= 3 && SecondOfThree(s[0], s[1]) && Tail(s[2]) then 3
    else if |s| >= 4 && SecondOfFour(s[0], s[1]) && Tail(s[2]) && Tail(s[3]) then 4
    else 0
  }

  /** utf8.ValidString */
  predicate WellFormed(s: seq<Byte>) {
    s == [] || (Width(s) > 0 && WellFormed(s[Width(s)..]))
  }

  /** How far `s` is well-formed: up to its first ill-formed character. */
  function ValidLength(s: seq<Byte>): nat {
    if Width(s) == 0 then 0 else Width(s) + ValidLength(s[Width(s)..])
  }

  /** k is the length of the longest well-formed prefix of at most n bytes. */
  ghost predicate LongestPrefix(s: seq<Byte>, n: nat, k: nat) {
    k <= n <= |s| && WellFormed(s[..k]) && forall j :: k < j <= n ==> !WellFormed(s[..j])
  }

  method TruncateFailure(value: seq<Byte>) returns (shown: seq<Byte>)
    ensures |shown| <= 2048
    ensures |value| <= 2048 ==> shown == value
    ensures |value| > 2048 ==> exists k: nat :: LongestPrefix(value, 2033, k) && shown == value[..k] + SUFFIX
  {
    if |value| <= MAX_REVEALED {
      return value;
    }
    var limit := MAX_REVEALED - |SUFFIX|;
    while limit > 0 && !WellFormed(value[..limit])
      invariant 0 <= limit <= ROOM
      invariant forall j :: limit < j <= ROOM ==> !WellFormed(value[..j])
    {
      limit := limit - 1;
    }
    assert LongestPrefix(value, ROOM, limit);
    return value[..limit] + SUFFIX;
  }

  // ---- well-formed texts are the encoded ones ----

  /** A character's number: any but the surrogates. */
  predicate Scalar(c: int) {
    0 <= c <= 0xD7FF || 0xE000 <= c <= 0x10FFFF
  }

  /** Its bytes, by the table in section 3 of RFC 3629. */
  function Encode(c: int): seq<Byte>
    requires Scalar(c)
  {
    if c <= 0x7F then [c]
    else if c <= 0x7FF then [0xC0 + c / 0x40, 0x80 + c % 0x40]
    else if c <= 0xFFFF then [0xE0 + c / 0x1000, 0x80 + c / 0x40 % 0x40, 0x80 + c % 0x40]
    else [0xF0 + c / 0x40000, 0x80 + c / 0x1000 % 0x40, 0x80 + c / 0x40 % 0x40, 0x80 + c % 0x40]
  }

  predicate Scalars(cs: seq<int>) {
    forall i :: 0 <= i < |cs| ==> Scalar(cs[i])
  }

  function EncodeAll(cs: seq<int>): seq<Byte>
    requires Scalars(cs)
  {
    if cs == [] then [] else Encode(cs[0]) + EncodeAll(cs[1..])
  }

  function Codes(s: string): seq<int> {
    seq(|s|, i requires 0 <= i < |s| => s[i] as int)
  }

  /** The length of a string in bytes is that of its encoding. */
  lemma {:induction false} ByteLengthIs(s: string)
    ensures Scalars(Codes(s)) && |EncodeAll(Codes(s))| == ByteLength(s)
  {
    if s != "" {
      ByteLengthIs(s[1..]);
      assert Codes(s)[1..] == Codes(s[1..]);
    }
  }

  lemma EncodedWidth(c: int, rest: seq<Byte>)
    requires Scalar(c)
    ensures Width(Encode(c) + rest) == |Encode(c)|
  {
    var s, e := Encode(c) + rest, Encode(c);
    assert forall i :: 0 <= i < |e| ==> s[i] == e[i];
  }

  lemma DecodedWidth(s: seq<Byte>) returns (c: int)
    requires Width(s) > 0
    ensures Scalar(c) && Encode(c) == s[..Width(s)]
  {
    var w := Width(s);
    if w == 1 {
      c := s[0];
    } else if w == 2 {
      c := Sixes(s[0] - 0xC0, s[1]);
    } else if w == 3 {
      c := Sixes(s[0] - 0xE0, s[1]);
      c := Sixes(c, s[2]);
    } else {
      c := DecodedFour(s);
    }
  }

  lemma DecodedFour(s: seq<Byte>) returns (c: int)
    requires Width(s) == 4
    ensures Scalar(c) && Encode(c) == s[..4]
  {
    c := Sixes(s[0] - 0xF0, s[1]);
    c := Sixes(c, s[2]);
    c := Sixes(c, s[3]);
  }

  /** Six more bits, from a byte behind the first. */
  lemma Sixes(high: int, b: int) returns (c: int)
    requires 0 <= high && 0x80 <= b <= 0xBF
    ensures c == high * 0x40 + (b - 0x80) && c / 0x40 == high && c % 0x40 == b - 0x80
    ensures c / 0x1000 == high / 0x40 && c / 0x40000 == high / 0x1000
  {
    c := high * 0x40 + (b - 0x80);
    assert c / 0x1000 == c / 0x40 / 0x40 && c / 0x40000 == c / 0x40 / 0x40 / 0x40;
  }

  /** A text is well-formed exactly if it encodes some characters. */
  lemma WellFormedIff(s: seq<Byte>)
    ensures WellFormed(s) <==> exists cs: seq<int> :: Scalars(cs) && EncodeAll(cs) == s
  {
    if WellFormed(s) {
      var cs := Decoded(s);
    }
    if cs: seq<int> :| Scalars(cs) && EncodeAll(cs) == s {
      EncodedWellFormed(cs);
    }
  }

  lemma {:induction false} Decoded(s: seq<Byte>) returns (cs: seq<int>)
    requires WellFormed(s)
    ensures Scalars(cs) && EncodeAll(cs) == s
  {
    cs := [];
    if s != [] {
      var c := DecodedWidth(s);
      var rest := Decoded(s[Width(s)..]);
      cs := [c] + rest;
      assert cs[1..] == rest;
    }
  }

  lemma {:induction false} EncodedWellFormed(cs: seq<int>)
    requires Scalars(cs)
    ensures WellFormed(EncodeAll(cs))
  {
    if cs != [] {
      EncodedWidth(cs[0], EncodeAll(cs[1..]));
      EncodedWellFormed(cs[1..]);
      assert EncodeAll(cs)[|Encode(cs[0])|..] == EncodeAll(cs[1..]);
    }
  }

  /** What a cut text ends with. */
  lemma SuffixReads()
    ensures |SUFFIX| == |"... [truncated]"|
    ensures forall i :: 0 <= i < |SUFFIX| ==> SUFFIX[i] == "... [truncated]"[i] as int
  {
  }

  // ---- what the cut keeps ----

  /** A character is recognised by its own bytes. */
  lemma WidthPrefix(s: seq<Byte>, j: nat)
    requires j <= |s|
    ensures 0 < Width(s) <= j ==> Width(s[..j]) == Width(s)
    ensures Width(s[..j]) > 0 ==> Width(s) == Width(s[..j])
  {
  }

  lemma {:induction false} WellFormedAppend(a: seq<Byte>, b: seq<Byte>)
    requires WellFormed(a) && WellFormed(b)
    ensures WellFormed(a + b)
  {
    if a == [] {
      assert a + b == b;
    } else {
      var w := Width(a);
      assert (a + b)[..|a|] == a;
      WidthPrefix(a + b, |a|);
      assert (a + b)[w..] == a[w..] + b;
      WellFormedAppend(a[w..], b);
    }
  }

  /** A well-formed prefix starts with the first character and goes on with a well-formed prefix. */
  lemma PrefixStep(s: seq<Byte>, j: nat)
    requires Width(s) <= j <= |s| && Width(s) > 0
    ensures WellFormed(s[..j]) <==> WellFormed(s[Width(s)..][..j - Width(s)])
  {
    var w := Width(s);
    WidthPrefix(s, j);
    assert s[..j][w..] == s[w..][..j - w];
  }

  /** No prefix is well-formed beyond the first ill-formed character. */
  lemma {:induction false} BeyondInvalid(s: seq<Byte>, j: nat)
    requires j <= |s| && WellFormed(s[..j])
    ensures j <= ValidLength(s)
  {
    if j > 0 {
      WidthPrefix(s, j);
      PrefixStep(s, j);
      BeyondInvalid(s[Width(s)..], j - Width(s));
    }
  }

  /** Among the last four positions before n there is the end of a character. */
  lemma {:induction false} NearBoundary(s: seq<Byte>, n: nat) returns (j: nat)
    requires n <= |s|
    ensures j <= n && WellFormed(s[..j])
    ensures if ValidLength(s) <= n then j == ValidLength(s) else n - 3 <= j
  {
    var w := Width(s);
    j := 0;
    if w == 0 || n < w {
      assert s[..0] == [];
    } else {
      var i := NearBoundary(s[w..], n - w);
      j := w + i;
      PrefixStep(s, j);
    }
  }

  /** Exactly what any text keeps: everything up to its first ill-formed character if that comes within
      the limit, and otherwise all but at most three bytes of the limit. */
  lemma Kept(s: seq<Byte>, n: nat, k: nat)
    requires LongestPrefix(s, n, k)
    ensures ValidLength(s) <= n ==> k == ValidLength(s)
    ensures ValidLength(s) > n ==> n - 3 <= k
  {
    var j := NearBoundary(s, n);
    BeyondInvalid(s, k);
  }

  lemma {:induction false} WellFormedLength(s: seq<Byte>)
    ensures WellFormed(s) <==> ValidLength(s) == |s|
  {
    if s != [] && Width(s) > 0 {
      WellFormedLength(s[Width(s)..]);
    }
  }

  /** Every text too long to show is shown well-formed, and a well-formed one loses at most three bytes
      more than the limit asks for. */
  lemma ShownText(value: seq<Byte>, k: nat)
    requires |value| > 2048 && LongestPrefix(value, 2033, k)
    ensures WellFormed(value[..k] + SUFFIX) && |value[..k] + SUFFIX| <= 2048
    ensures WellFormed(value) ==> 2033 - 3 <= k
  {
    var kept := value[..k];
    ShownWellFormed(kept);
    Kept(value, ROOM, k);
    WellFormedLength(value);
  }

  lemma ShownWellFormed(kept: seq<Byte>)
    requires WellFormed(kept)
    ensures WellFormed(kept + SUFFIX)
  {
    Ascii(SUFFIX);
    WellFormedAppend(kept, SUFFIX);
  }

  lemma {:induction false} Ascii(s: seq<Byte>)
    requires forall i :: 0 <= i < |s| ==> s[i] <= 0x7F
    ensures WellFormed(s)
  {
    if s != [] {
      Ascii(s[1..]);
    }
  }

  /** Three bytes are sometimes lost: four-byte characters need not end where the limit falls. */
  lemma ThreeBytesLost(value: seq<Byte>, k: nat)
    requires |value| > MAX_REVEALED && WellFormed(value) && LongestPrefix(value, ROOM, k)
    requires ROOM - 3 <= |value| && WellFormed(value[..ROOM - 3]) && Width(value[ROOM - 3..]) == 4
    ensures k == ROOM - 3
  {
    forall j | ROOM - 3 < j <= ROOM ensures !WellFormed(value[..j]) {
      Inside(value, ROOM - 3, j);
    }
  }

  /** Inside a character no prefix is well-formed. */
  lemma {:induction false} Inside(s: seq<Byte>, start: nat, j: nat)
    requires start < j <= |s| && WellFormed(s[..start]) && j < start + Width(s[start..])
    ensures !WellFormed(s[..j])
  {
    if start == 0 {
      assert s[0..] == s;
      WidthPrefix(s, j);
    } else {
      var w := Width(s);
      WidthPrefix(s, start);
      PrefixStep(s, start);
      PrefixStep(s, j);
      assert s[w..][start - w..] == s[start..];
      Inside(s[w..], start - w, j - w);
    }
  }
}
