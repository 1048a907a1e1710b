/** The types a Go problem may declare, and their recursive parser with its nesting bound. */
module GoTypes {
  import opened Sequences
  import opened Text

  datatype Key = StringKey | IntKey

  datatype GoType = Int | Float64 | Bool | String | Slice(elem: GoType) | Map(key: Key, elem: GoType)

  datatype Fault = TooDeep | MissingBracket | BadKey | Unsupported

  datatype Parsed = Ok(goType: GoType) | Err(fault: Fault)

  const MAX_DEPTH: nat := 8

  // ---- the parser ----

  lemma TrimShorter(s: string)
    ensures |Trim(s)| <= |s|
  {
    var left, right := TrimParts(s);
  }

  function Base(s: string): Parsed {
    if s == "int" then Ok(Int)
    else if s == "float64" then Ok(Float64)
    else if s == "bool" then Ok(Bool)
    else if s == "string" then Ok(String)
    else Err(Unsupported)
  }

  function Parse(source: string, depth: nat): Parsed
    decreases |source|
  {
    TrimShorter(source);
    if depth > MAX_DEPTH then Err(TooDeep)
    else
      var s := Trim(source);
      if Base(s).Ok? then Base(s)
      else if "[]" <= s then
        (match Parse(s[2..], depth + 1) case Ok(elem) => Ok(Slice(elem)) case Err(fault) => Err(fault))
      else if "map[" <= s then
        var end := Until(s, ']');
        if end == |s| then Err(MissingBracket)
        else
          var key := s[4..end];
          if key != "string" && key != "int" then Err(BadKey)
          else
            (match Parse(s[end + 1..], depth + 1)
             case Ok(elem) => Ok(Map(if key == "int" then IntKey else StringKey, elem))
             case Err(fault) => Err(fault))
      else Err(Unsupported)
  }

  // ---- the language, independently of the parser ----

  function Name(t: GoType): string
    requires !t.Slice? && !t.Map?
  {
    match t case Int => "int" case Float64 => "float64" case Bool => "bool" case String => "string"
  }

  /** What a slice or map type starts with. */
  function Head(t: GoType): string
    requires t.Slice? || t.Map?
  {
    match t case Slice(_) => "[]" case Map(IntKey, _) => "map[int]" case Map(StringKey, _) => "map[string]"
  }

  function Print(t: GoType): string {
    if t.Slice? || t.Map? then Head(t) + Print(t.elem) else Name(t)
  }

  /** How many slices and maps are around the base type. */
  function Nesting(t: GoType): nat {
    if t.Slice? || t.Map? then 1 + Nesting(t.elem) else 0
  }

  predicate Around(s: string, left: string, core: string, right: string) {
    Blank(left) && Blank(right) && s == left + core + right
  }

  /** `s` writes `t`: its printed form, with blanks before and after the type and each of its elements. */
  ghost predicate Writes(s: string, t: GoType)
    decreases t
  {
    if t.Slice? || t.Map? then
      exists left, rest, right :: Around(s, left, Head(t) + rest, right) && Writes(rest, t.elem)
    else
      exists left, right :: Around(s, left, Name(t), right)
  }

  // ---- trimming ----

  lemma {:induction false} TrimLeftParts(s: string) returns (left: string)
    ensures Blank(left) && s == left + TrimLeft(s)
  {
    if s == "" || !IsSpace(s[0]) {
      left := "";
    } else {
      var l := TrimLeftParts(s[1..]);
      left := [s[0]] + l;
      assert s == [s[0]] + s[1..];
    }
  }

  lemma {:induction false} TrimRightParts(s: string) returns (right: string)
    ensures Blank(right) && s == TrimRight(s) + right
  {
    if s == "" || !IsSpace(s[|s| - 1]) {
      right := "";
    } else {
      var r := TrimRightParts(s[..|s| - 1]);
      right := r + [s[|s| - 1]];
      assert s == s[..|s| - 1] + [s[|s| - 1]];
    }
  }

  /** Trimming takes blanks from both ends, nothing else. */
  lemma TrimParts(s: string) returns (left: string, right: string)
    ensures Around(s, left, Trim(s), right)
  {
    left := TrimLeftParts(s);
    right := TrimRightParts(TrimLeft(s));
    assert left + (Trim(s) + right) == left + Trim(s) + right;
  }

  lemma {:induction false} TrimLeftPad(left: string, s: string)
    requires Blank(left)
    ensures TrimLeft(left + s) == TrimLeft(s)
  {
    if left == "" {
      assert left + s == s;
    } else {
      assert (left + s)[1..] == left[1..] + s;
      assert left[0] in left;
      TrimLeftPad(left[1..], s);
    }
  }

  lemma {:induction false} TrimRightPad(s: string, right: string)
    requires Blank(right)
    ensures TrimRight(s + right) == TrimRight(s)
  {
    if right == "" {
      assert s + right == s;
    } else {
      var front := right[..|right| - 1];
      assert (s + right)[..|s + right| - 1] == s + front;
      assert right[|right| - 1] in right;
      TrimRightPad(s, front);
    }
  }

  lemma {:induction false} TrimLeftAppend(s: string, t: string)
    requires !Blank(s)
    ensures TrimLeft(s + t) == TrimLeft(s) + t
  {
    if IsSpace(s[0]) {
      assert (s + t)[1..] == s[1..] + t;
      assert s == [s[0]] + s[1..];
      TrimLeftAppend(s[1..], t);
    }
  }

  /** Blanks around a string do not survive trimming. */
  lemma TrimPad(s: string, left: string, core: string, right: string)
    requires Around(s, left, core, right)
    ensures Trim(s) == Trim(core)
  {
    assert s == left + (core + right);
    TrimLeftPad(left, core + right);
    if Blank(core) {
      TrimLeftPad(core + right, "");
      TrimLeftPad(core, "");
      assert core + "" == core && (core + right) + "" == core + right;
    } else {
      TrimLeftAppend(core, right);
      TrimRightPad(TrimLeft(core), right);
    }
  }

  lemma {:induction false} TrimRightAppend(s: string, t: string)
    requires s != "" && !IsSpace(s[|s| - 1])
    ensures TrimRight(s + t) == s + TrimRight(t)
  {
    if t == "" {
      assert s + t == s;
    } else {
      var front := t[..|t| - 1];
      assert (s + t)[..|s + t| - 1] == s + front;
      TrimRightAppend(s, front);
      if IsSpace(t[|t| - 1]) {
        assert s + TrimRight(front) == s + TrimRight(t);
      }
    }
  }

  /** Of a string with a solid beginning, what follows is trimmed on the right only. */
  lemma TrimAfter(head: string, rest: string)
    requires head != "" && !IsSpace(head[0]) && !IsSpace(head[|head| - 1])
    ensures Trim(head + rest) == head + TrimRight(rest)
  {
    TrimRightAppend(head, rest);
    assert (head + rest)[0] == head[0];
  }

  lemma TrimOfTrimRight(rest: string)
    ensures Trim(TrimRight(rest)) == Trim(rest)
  {
    var right := TrimRightParts(rest);
    var core := TrimRight(rest);
    assert "" + core == core;
    TrimPad(rest, "", core, right);
  }

  lemma HeadSolid(t: GoType)
    requires t.Slice? || t.Map?
    ensures var h := Head(t); h != "" && !IsSpace(h[0]) && !IsSpace(h[|h| - 1])
  {
  }

  // ---- the parser accepts exactly the language, up to the bound ----

  /** What a type makes of what its element parses as. */
  function Lift(t: GoType, inner: Parsed): Parsed
    requires t.Slice? || t.Map?
  {
    match inner
    case Ok(elem) => Ok(if t.Slice? then Slice(elem) else Map(t.key, elem))
    case Err(fault) => Err(fault)
  }

  lemma MapText(x: string, key: string, rest: string)
    requires x == "map[" + key + "]" + rest && ']' !in key
    ensures "map[" <= x && Until(x, ']') == 4 + |key| && |x| > 4 + |key|
    ensures x[4..4 + |key|] == key && x[4 + |key| + 1..] == rest
  {
    Parts("map[", key, "]", rest);
    assert x[4 + |key|..4 + |key| + 1][0] == ']';
    UntilIs(x, ']', 4 + |key|);
  }

  /** One level of the parser on what one level of the language writes. */
  lemma ParseHead(s: string, t: GoType, rest: string, depth: nat)
    requires t.Slice? || t.Map?
    requires Trim(s) == Head(t) + rest && depth <= MAX_DEPTH
    ensures Parse(s, depth) == Lift(t, Parse(rest, depth + 1))
  {
    if t.Slice? {
      ParseSliceHead(s, rest, depth);
    } else if t.key.IntKey? {
      assert Head(t) == "map[" + "int" + "]";
      ParseMapHead(s, "int", rest, depth);
    } else {
      assert Head(t) == "map[" + "string" + "]";
      ParseMapHead(s, "string", rest, depth);
    }
  }

  lemma ParseSliceHead(s: string, rest: string, depth: nat)
    requires Trim(s) == "[]" + rest && depth <= MAX_DEPTH
    ensures Parse(s, depth) ==
      match Parse(rest, depth + 1) case Ok(elem) => Ok(Slice(elem)) case Err(fault) => Err(fault)
  {
    var x := Trim(s);
    assert x[..2] == "[]" && x[2..] == rest && x[0] == '[';
  }

  lemma ParseMapHead(s: string, key: string, rest: string, depth: nat)
    requires key == "int" || key == "string"
    requires Trim(s) == "map[" + key + "]" + rest && depth <= MAX_DEPTH
    ensures Parse(s, depth) ==
      match Parse(rest, depth + 1)
      case Ok(elem) => Ok(Map(if key == "int" then IntKey else StringKey, elem))
      case Err(fault) => Err(fault)
  {
    var x := Trim(s);
    MapText(x, key, rest);
    assert x[0] == 'm';
  }

  /** Nothing but blanks around a string is lost on the parser. */
  lemma ParseTrimmed(a: string, b: string, depth: nat)
    requires Trim(a) == Trim(b)
    ensures Parse(a, depth) == Parse(b, depth)
  {
  }

  lemma ParseName(s: string, t: GoType, left: string, right: string, depth: nat)
    requires !t.Slice? && !t.Map? && Around(s, left, Name(t), right)
    ensures Parse(s, depth) == if depth <= MAX_DEPTH then Ok(t) else Err(TooDeep)
  {
    TrimPad(s, left, Name(t), right);
    TrimSolid(Name(t));
  }

  /** One level, with the blanks around it. */
  lemma ParseAround(s: string, t: GoType, left: string, rest: string, right: string, depth: nat)
    requires t.Slice? || t.Map?
    requires Around(s, left, Head(t) + rest, right) && depth <= MAX_DEPTH
    ensures Parse(s, depth) == Lift(t, Parse(rest, depth + 1))
  {
    TrimPad(s, left, Head(t) + rest, right);
    HeadSolid(t);
    TrimAfter(Head(t), rest);
    ParseHead(s, t, TrimRight(rest), depth);
    TrimOfTrimRight(rest);
    ParseTrimmed(TrimRight(rest), rest, depth + 1);
  }

  function WithinBound(t: GoType, depth: nat): Parsed {
    if depth + Nesting(t) <= MAX_DEPTH then Ok(t) else Err(TooDeep)
  }

  lemma LiftBound(t: GoType, depth: nat)
    requires t.Slice? || t.Map?
    ensures Lift(t, WithinBound(t.elem, depth + 1)) == WithinBound(t, depth)
  {
  }

  lemma WrittenStep(s: string, t: GoType, left: string, rest: string, right: string, depth: nat)
    requires (t.Slice? || t.Map?) && Around(s, left, Head(t) + rest, right)
    requires Parse(rest, depth + 1) == WithinBound(t.elem, depth + 1)
    ensures Parse(s, depth) == WithinBound(t, depth)
  {
    if depth <= MAX_DEPTH {
      ParseAround(s, t, left, rest, right, depth);
      LiftBound(t, depth);
    }
  }

  lemma WrittenHead(s: string, t: GoType) returns (left: string, rest: string, right: string)
    requires Writes(s, t) && (t.Slice? || t.Map?)
    ensures Around(s, left, Head(t) + rest, right) && Writes(rest, t.elem)
  {
    left, rest, right :| Around(s, left, Head(t) + rest, right) && Writes(rest, t.elem);
  }

  lemma {:induction false} WrittenParses(s: string, t: GoType, depth: nat)
    requires Writes(s, t)
    ensures Parse(s, depth) == WithinBound(t, depth)
    decreases t
  {
    if t.Slice? || t.Map? {
      var left, rest, right := WrittenHead(s, t);
      WrittenParses(rest, t.elem, depth + 1);
      WrittenStep(s, t, left, rest, right, depth);
    } else {
      var left, right :| Around(s, left, Name(t), right);
      ParseName(s, t, left, right, depth);
    }
  }

  /** What the parser saw before it went on to the element. */
  lemma ParsedHead(s: string, t: GoType, depth: nat) returns (rest: string)
    requires Parse(s, depth) == Ok(t) && (t.Slice? || t.Map?)
    ensures Trim(s) == Head(t) + rest && |rest| < |s|
    ensures Parse(rest, depth + 1) == Ok(t.elem)
  {
    TrimShorter(s);
    if t.Slice? {
      rest := ParsedSlice(s, t, depth);
    } else {
      var end := ParsedMap(s, t, depth);
      rest := Trim(s)[end + 1..];
      MapHead(Trim(s), end, t);
    }
  }

  lemma ParsedSlice(s: string, t: GoType, depth: nat) returns (rest: string)
    requires Parse(s, depth) == Ok(t) && t.Slice?
    ensures Trim(s) == "[]" + rest && Parse(rest, depth + 1) == Ok(t.elem)
  {
    rest := Trim(s)[2..];
    assert Trim(s) == Trim(s)[..2] + rest;
  }

  lemma ParsedMap(s: string, t: GoType, depth: nat) returns (end: nat)
    requires Parse(s, depth) == Ok(t) && t.Map?
    ensures "map[" <= Trim(s) && 4 <= end < |Trim(s)| && Trim(s)[end] == ']'
    ensures Trim(s)[4..end] == if t.key.IntKey? then "int" else "string"
    ensures Parse(Trim(s)[end + 1..], depth + 1) == Ok(t.elem)
  {
    end := Until(Trim(s), ']');
  }

  lemma {:induction false} ParsedIsWritten(s: string, t: GoType, depth: nat)
    requires Parse(s, depth) == Ok(t)
    ensures Writes(s, t)
    decreases |s|
  {
    var left, right := TrimParts(s);
    if t.Slice? || t.Map? {
      var rest := ParsedHead(s, t, depth);
      ParsedIsWritten(rest, t.elem, depth + 1);
    } else {
      ParsedName(s, t, depth);
    }
  }

  lemma ParsedName(s: string, t: GoType, depth: nat)
    requires Parse(s, depth) == Ok(t) && !t.Slice? && !t.Map?
    ensures Trim(s) == Name(t)
  {
  }

  lemma MapHead(x: string, end: nat, t: GoType)
    requires t.Map? && "map[" <= x && 4 <= end < |x| && x[end] == ']'
    requires x[4..end] == if t.key.IntKey? then "int" else "string"
    ensures x == Head(t) + x[end + 1..]
  {
    assert x == x[..4] + x[4..end] + [x[end]] + x[end + 1..];
    assert Head(t) == "map[" + x[4..end] + "]";
  }

  /** The parser accepts exactly the written types that nest at most eight deep, each as the type it
      writes. What it is given is any string, at any depth. */
  lemma ParseIff(s: string, depth: nat, t: GoType)
    ensures Parse(s, depth) == Ok(t) <==> Writes(s, t) && depth + Nesting(t) <= 8
  {
    if Parse(s, depth) == Ok(t) {
      ParsedIsWritten(s, t, depth);
    }
    if Writes(s, t) {
      WrittenParses(s, t, depth);
    }
  }

  lemma Nothing(core: string)
    ensures Around(core, "", core, "")
  {
    assert core == "" + core + "";
  }

  lemma {:induction false} PrintWrites(t: GoType)
    ensures Writes(Print(t), t)
  {
    if t.Slice? || t.Map? {
      PrintWrites(t.elem);
      Nothing(Head(t) + Print(t.elem));
    } else {
      Nothing(Name(t));
    }
  }

  /** Printing and parsing gives the type back exactly when it nests at most eight slices and maps. */
  lemma RoundTrip(t: GoType)
    ensures Parse(Print(t), 0) == Ok(t) <==> Nesting(t) <= 8
    ensures Parse(Print(t), 0) == Err(TooDeep) <==> Nesting(t) > 8
  {
    PrintWrites(t);
    WrittenParses(Print(t), t, 0);
  }

  // ---- accepted strings are printed forms with blanks ----

  function WithoutBlanks(s: string): string {
    if s == "" then "" else (if IsSpace(s[0]) then "" else [s[0]]) + WithoutBlanks(s[1..])
  }

  lemma {:induction false} WithoutBlanksAppend(a: string, b: string)
    ensures WithoutBlanks(a + b) == WithoutBlanks(a) + WithoutBlanks(b)
  {
    if a == "" {
      assert a + b == b;
    } else {
      assert (a + b)[1..] == a[1..] + b;
      WithoutBlanksAppend(a[1..], b);
    }
  }

  lemma {:induction false} BlankVanishes(s: string)
    requires Blank(s)
    ensures WithoutBlanks(s) == ""
  {
    if s != "" {
      assert s[0] in s;
      BlankVanishes(s[1..]);
    }
  }

  lemma {:induction false} SolidStays(s: string)
    requires forall i :: 0 <= i < |s| ==> !IsSpace(s[i])
    ensures WithoutBlanks(s) == s
  {
    if s != "" {
      SolidStays(s[1..]);
    }
  }

  lemma HeadStays(t: GoType)
    requires t.Slice? || t.Map?
    ensures WithoutBlanks(Head(t)) == Head(t)
  {
    SolidStays(Head(t));
  }

  lemma NameStays(t: GoType)
    requires !t.Slice? && !t.Map?
    ensures WithoutBlanks(Name(t)) == Name(t)
  {
    SolidStays(Name(t));
  }

  lemma AroundWithoutBlanks(s: string, left: string, core: string, right: string)
    requires Around(s, left, core, right)
    ensures WithoutBlanks(s) == WithoutBlanks(core)
  {
    WithoutBlanksAppend(left + core, right);
    WithoutBlanksAppend(left, core);
    BlankVanishes(left);
    BlankVanishes(right);
  }

  lemma {:induction false} WrittenIsPrinted(s: string, t: GoType)
    requires Writes(s, t)
    ensures WithoutBlanks(s) == Print(t)
    decreases t
  {
    if t.Slice? || t.Map? {
      var left, rest, right := WrittenHead(s, t);
      AroundWithoutBlanks(s, left, Head(t) + rest, right);
      WithoutBlanksAppend(Head(t), rest);
      HeadStays(t);
      WrittenIsPrinted(rest, t.elem);
    } else {
      var left, right :| Around(s, left, Name(t), right);
      AroundWithoutBlanks(s, left, Name(t), right);
      NameStays(t);
    }
  }

  /** Every accepted string is, without its blanks, the printed form of its type. */
  lemma AcceptedIsPrinted(s: string, depth: nat, t: GoType)
    requires Parse(s, depth) == Ok(t)
    ensures WithoutBlanks(s) == Print(t)
  {
    ParsedIsWritten(s, t, depth);
    WrittenIsPrinted(s, t);
  }

  /** Not every such string is accepted: a blank inside a name is not trimmed. */
  lemma InnerBlankRejected()
    ensures WithoutBlanks("i nt") == Print(Int) && Parse("i nt", 0) == Err(Unsupported)
  {
    WithoutBlanksAppend("i ", "nt");
    WithoutBlanksAppend("i", " ");
    assert "i " + "nt" == "i nt" && "i" + " " == "i ";
    BlankVanishes(" ");
    TrimSolid("i nt");
  }
}
