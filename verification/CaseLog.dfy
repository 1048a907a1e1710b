/** The harness's append-only progress log and its recovery after a crash. The harness appends one JSON
    line when a case starts and one when it ends; parseCaseProgress reads whatever a killed process
    left behind, so the last line may stop anywhere. */
module CaseLog {
  import opened Options
  import opened Sequences
  import opened Text

  datatype CaseResult = CaseResult(name: string, status: string, durationMs: int, error: Option<string>)

  datatype CaseEvent = CaseEvent(event: string, name: string, status: string, durationMs: int, error: Option<string>)

  const CASE_START: string := "case_start"
  const CASE_RESULT: string := "case_result"

  datatype CaseFault = NameRequired | InvalidStatus | NegativeDuration

  /** validateCase */
  function CaseFaultOf(c: CaseResult): Option<CaseFault> {
    if Blank(c.name) then Some(NameRequired)
    else if c.status != "pass" && c.status != "fail" then Some(InvalidStatus)
    else if c.durationMs < 0 then Some(NegativeDuration)
    else None
  }

  datatype ProtocolError =
    | MalformedLine(line: nat)
    | InvalidLine(line: nat, fault: CaseFault)
    | UndecodableVerdict
    | InvalidVerdict

  datatype Progress = Progress(cases: seq<CaseResult>, inFlight: string, errors: seq<ProtocolError>)

  // ---- scanning ----

  function DropCR(line: string): string {
    if line != "" && line[|line| - 1] == '\r' then line[..|line| - 1] else line
  }

  function AfterLine(data: string): (rest: string)
    ensures data != "" ==> |rest| < |data|
  {
    var k := Until(data, '\n');
    if k < |data| then data[k + 1..] else ""
  }

  /** The lines bufio.Scanner yields: the last one needs no newline, but is not empty. */
  function Lines(data: string): seq<string>
    decreases |data|
  {
    if data == "" then [] else [DropCR(data[..Until(data, '\n')])] + Lines(AfterLine(data))
  }

  function Result(e: CaseEvent): CaseResult {
    CaseResult(e.name, e.status, e.durationMs, e.error)
  }

  /** One decoded event, on line n. */
  function WithEvent(p: Progress, e: CaseEvent, n: nat): Progress {
    if e.event == CASE_START then (if Blank(e.name) then p else p.(inFlight := e.name))
    else if e.event == CASE_RESULT then
      var fault := CaseFaultOf(Result(e));
      if fault.Some? then p.(errors := p.errors + [InvalidLine(n, fault.value)])
      else p.(cases := p.cases + [Result(e)], inFlight := if p.inFlight == e.name then "" else p.inFlight)
    else p
  }

  function WithLine(p: Progress, line: string, n: nat, decode: string -> Option<CaseEvent>): Progress {
    if Blank(line) then p
    else match decode(line)
      case None => p.(errors := p.errors + [MalformedLine(n)])
      case Some(e) => WithEvent(p, e, n)
  }

  function Scanned(lines: seq<string>, decode: string -> Option<CaseEvent>): Progress {
    if lines == [] then Progress([], "", [])
    else WithLine(Scanned(lines[..|lines| - 1], decode), lines[|lines| - 1], |lines|, decode)
  }

  method ParseCaseProgress(data: string, decode: string -> Option<CaseEvent>)
    returns (cases: seq<CaseResult>, inFlight: string, errors: seq<ProtocolError>)
    ensures Progress(cases, inFlight, errors) == Scanned(Lines(data), decode)
  {
    cases, inFlight, errors := [], "", [];
    var rest, lineNumber := data, 0;
    ghost var read: seq<string> := [];
    while rest != ""
      invariant |read| == lineNumber && read + Lines(rest) == Lines(data)
      invariant Progress(cases, inFlight, errors) == Scanned(read, decode)
      decreases |rest|
    {
      var line := DropCR(rest[..Until(rest, '\n')]);
      LinesNext(read, rest, line);
      ScannedNext(read, line, decode);
      read := read + [line];
      lineNumber, rest := lineNumber + 1, AfterLine(rest);
      if Blank(line) {
        continue;
      }
      var decoded := decode(line);
      if decoded.None? {
        errors := errors + [MalformedLine(lineNumber)];
        continue;
      }
      cases, inFlight, errors := ApplyEvent(cases, inFlight, errors, decoded.value, lineNumber);
    }
    assert read == Lines(data);
  }

  /** The switch over the event's kind. */
  method ApplyEvent(cases0: seq<CaseResult>, inFlight0: string, errors0: seq<ProtocolError>, event: CaseEvent, n: nat)
    returns (cases: seq<CaseResult>, inFlight: string, errors: seq<ProtocolError>)
    ensures Progress(cases, inFlight, errors) == WithEvent(Progress(cases0, inFlight0, errors0), event, n)
  {
    cases, inFlight, errors := cases0, inFlight0, errors0;
    if event.event == CASE_START {
      if !Blank(event.name) {
        inFlight := event.name;
      }
    } else if event.event == CASE_RESULT {
      var fault := CaseFaultOf(Result(event));
      if fault.Some? {
        errors := errors + [InvalidLine(n, fault.value)];
        return;
      }
      cases := cases + [Result(event)];
      if inFlight == event.name {
        inFlight := "";
      }
    }
  }

  lemma LinesNext(read: seq<string>, rest: string, line: string)
    requires rest != "" && line == DropCR(rest[..Until(rest, '\n')])
    ensures read + Lines(rest) == (read + [line]) + Lines(AfterLine(rest))
  {
    Regroup(read, line, Lines(AfterLine(rest)));
  }

  lemma ScannedNext(read: seq<string>, line: string, decode: string -> Option<CaseEvent>)
    ensures Scanned(read + [line], decode) == WithLine(Scanned(read, decode), line, |read| + 1, decode)
  {
    var all := read + [line];
    assert all[..|all| - 1] == read && all[|all| - 1] == line;
  }

  // ---- the log the harness writes ----

  /** One start and one result per case, in order. */
  function HarnessEvents(cases: seq<CaseResult>): seq<CaseEvent> {
    seq(2 * |cases|, i requires 0 <= i < 2 * |cases| =>
      var c := cases[i / 2];
      if i % 2 == 0 then CaseEvent("case_start", c.name, "", 0, None)
      else CaseEvent("case_result", c.name, c.status, c.durationMs, c.error))
  }

  /** The harness reports pass or fail and a non-negative duration; names come from the problem. */
  predicate Reported(cases: seq<CaseResult>) {
    forall c :: c in cases ==> c.status in {"pass", "fail"} && c.durationMs >= 0
  }

  function Texts(events: seq<CaseEvent>, encode: CaseEvent -> string): seq<string> {
    seq(|events|, i requires 0 <= i < |events| => encode(events[i]))
  }

  /** Each text on its own line. */
  function Joined(texts: seq<string>): string {
    if texts == [] then "" else texts[0] + "\n" + Joined(texts[1..])
  }

  function Encoded(events: seq<CaseEvent>, encode: CaseEvent -> string): string {
    Joined(Texts(events, encode))
  }

  predicate OneLine(t: string) {
    t != "" && '\n' !in t && '\r' !in t
  }

  predicate OneLines(texts: seq<string>) {
    forall i :: 0 <= i < |texts| ==> OneLine(texts[i])
  }

  /** What a JSON object on one line gives: it decodes to what was encoded, and no proper part of it that
      starts where it starts decodes at all. */
  predicate Framed(e: CaseEvent, encode: CaseEvent -> string, decode: string -> Option<CaseEvent>) {
    var t := encode(e);
    && OneLine(t) && t[0] == '{'
    && decode(t) == Some(e)
    && forall k :: 0 < k < |t| ==> decode(t[..k]) == None
  }

  /** Exactly n of the texts are whole within the first k bytes of the log. */
  predicate Complete(texts: seq<string>, k: nat, n: nat) {
    && n <= |texts|
    && (n > 0 ==> |Joined(texts[..n])| - 1 <= k)
    && (n < |texts| ==> k < |Joined(texts[..n])| + |texts[n]|)
  }

  /** The fragment that the cut leaves of the text after the whole ones. */
  function Fragment(texts: seq<string>, k: nat, n: nat): seq<string>
    requires n <= |texts| && k <= |Joined(texts)|
  {
    var start := |Joined(texts[..n])|;
    if k <= start then [] else [Joined(texts)[start..k]]
  }

  // ---- cutting ----

  lemma OnlyLine(t: string)
    requires '\n' !in t && '\r' !in t
    ensures Lines(t) == if t == "" then [] else [t]
  {
    assert t[..|t|] == t;
    UntilIs(t, '\n', |t|);
  }

  /** A text without line breaks, followed by a newline, is read as one line. */
  lemma FirstLine(t: string, rest: string)
    requires '\n' !in t && '\r' !in t
    ensures Lines(t + "\n" + rest) == [t] + Lines(rest)
  {
    var data := t + "\n" + rest;
    assert data[..|t|] == t && data[|t|] == '\n';
    UntilIs(data, '\n', |t|);
    assert data[|t| + 1..] == rest;
  }

  lemma JoinedPrefix(texts: seq<string>, n: nat)
    requires 0 < n <= |texts|
    ensures Joined(texts[..n]) == texts[0] + "\n" + Joined(texts[1..][..n - 1])
  {
    assert texts[..n][1..] == texts[1..][..n - 1];
  }

  /** A cut log is read as the whole texts, in order, and the fragment if there is one. */
  lemma {:induction false} CutLines(texts: seq<string>, k: nat, n: nat)
    requires OneLines(texts)
    requires k <= |Joined(texts)| && Complete(texts, k, n)
    ensures Lines(Joined(texts)[..k]) == texts[..n] + Fragment(texts, k, n)
    decreases |texts|
  {
    if n == 0 {
      CutInFirst(texts, k);
    } else if k == |texts[0]| {
      CutAfterFirst(texts, n);
    } else {
      var j := CutShift(texts, k, n);
      CutLines(texts[1..], j, n - 1);
      CutNext(texts, k, n, j);
    }
  }

  lemma CutNext(texts: seq<string>, k: nat, n: nat, j: nat)
    requires 0 < n <= |texts| && OneLine(texts[0])
    requires k == |texts[0]| + 1 + j && j <= |Joined(texts[1..])|
    requires Lines(Joined(texts[1..])[..j]) == texts[1..][..n - 1] + Fragment(texts[1..], j, n - 1)
    ensures Lines(Joined(texts)[..k]) == texts[..n] + Fragment(texts, k, n)
  {
    CutLater(texts, k);
    FragmentShift(texts, k, n);
    PrependPrefix(texts, n, Fragment(texts, k, n));
  }

  /** Where the cut is, seen from the second text. */
  lemma CutShift(texts: seq<string>, k: nat, n: nat) returns (j: nat)
    requires 0 < n <= |texts| && k != |texts[0]| && OneLines(texts)
    requires k <= |Joined(texts)| && Complete(texts, k, n)
    ensures OneLine(texts[0]) && OneLines(texts[1..])
    ensures k == |texts[0]| + 1 + j
    ensures j <= |Joined(texts[1..])| && Complete(texts[1..], j, n - 1)
  {
    JoinedPrefix(texts, n);
    j := k - |texts[0]| - 1;
  }

  lemma CutLater(texts: seq<string>, k: nat)
    requires texts != [] && |texts[0]| < k <= |Joined(texts)| && OneLine(texts[0])
    ensures Lines(Joined(texts)[..k]) == [texts[0]] + Lines(Joined(texts[1..])[..k - |texts[0]| - 1])
  {
    var t, later := texts[0], Joined(texts[1..]);
    var j := k - |t| - 1;
    assert Joined(texts)[..k] == t + "\n" + later[..j];
    FirstLine(t, later[..j]);
  }

  lemma CutInFirst(texts: seq<string>, k: nat)
    requires OneLines(texts)
    requires k <= |Joined(texts)| && Complete(texts, k, 0)
    ensures Lines(Joined(texts)[..k]) == texts[..0] + Fragment(texts, k, 0)
  {
    assert Joined(texts[..0]) == "";
    if texts != [] {
      assert OneLine(texts[0]);
      var piece := texts[0][..k];
      assert Joined(texts)[..k] == piece;
      OnlyLine(piece);
    }
  }

  lemma CutAfterFirst(texts: seq<string>, n: nat)
    requires OneLines(texts) && 0 < n <= |texts|
    requires |texts[0]| <= |Joined(texts)| && Complete(texts, |texts[0]|, n)
    ensures Lines(Joined(texts)[..|texts[0]|]) == texts[..n] + Fragment(texts, |texts[0]|, n)
  {
    var t := texts[0];
    JoinedPrefix(texts, n);
    if n > 1 {
      JoinedPrefix(texts[1..], n - 1);
    }
    assert OneLine(t);
    assert Joined(texts)[..|t|] == t;
    OnlyLine(t);
    assert texts[..1] == [t];
  }

  lemma FragmentShift(texts: seq<string>, k: nat, n: nat)
    requires 0 < n <= |texts| && |texts[0]| < k <= |Joined(texts)|
    ensures Fragment(texts, k, n) == Fragment(texts[1..], k - |texts[0]| - 1, n - 1)
  {
    JoinedPrefix(texts, n);
    var t, later := texts[0], Joined(texts[1..]);
    var start, j := |Joined(texts[1..][..n - 1])|, k - |t| - 1;
    if start < j {
      assert (t + "\n" + later)[|t| + 1 + start..|t| + 1 + j] == later[start..j];
    }
  }

  lemma {:induction false} JoinedSplit(texts: seq<string>, n: nat)
    requires n <= |texts|
    ensures Joined(texts) == Joined(texts[..n]) + Joined(texts[n..])
  {
    if n == 0 {
      assert texts[..0] == [] && texts[0..] == texts;
    } else {
      JoinedPrefix(texts, n);
      JoinedSplit(texts[1..], n - 1);
      assert texts[1..][n - 1..] == texts[n..];
    }
  }

  /** The fragment is the beginning of one text, and not all of it. */
  lemma FragmentProper(texts: seq<string>, k: nat, n: nat) returns (j: nat)
    requires k <= |Joined(texts)| && Complete(texts, k, n)
    requires |Joined(texts[..n])| < k
    ensures n < |texts| && 0 < j < |texts[n]|
    ensures Fragment(texts, k, n) == [texts[n][..j]]
  {
    JoinedSplit(texts, n);
    var start := |Joined(texts[..n])|;
    j := k - start;
    assert texts[..|texts|] == texts;
    if n < |texts| {
      var t, later := texts[n], Joined(texts[n..][1..]);
      assert Joined(texts[n..]) == t + "\n" + later;
      assert Joined(texts)[start..k] == t[..j];
    }
  }

  // ---- recovery ----

  function Replay(events: seq<CaseEvent>): Progress {
    if events == [] then Progress([], "", [])
    else WithEvent(Replay(events[..|events| - 1]), events[|events| - 1], |events|)
  }

  lemma FramedNotBlank(t: string)
    requires t != "" && t[0] == '{'
    ensures !Blank(t)
  {
    assert t[0] in t;
  }

  lemma {:induction false} ScannedTexts(
    events: seq<CaseEvent>, encode: CaseEvent -> string, decode: string -> Option<CaseEvent>)
    requires forall e :: e in events ==> Framed(e, encode, decode)
    ensures Scanned(Texts(events, encode), decode) == Replay(events)
  {
    if events != [] {
      var front, last := events[..|events| - 1], events[|events| - 1];
      ScannedTexts(front, encode, decode);
      assert Texts(events, encode)[..|events| - 1] == Texts(front, encode);
      assert Framed(last, encode, decode);
      FramedNotBlank(encode(last));
    }
  }

  lemma TextsPrefix(events: seq<CaseEvent>, encode: CaseEvent -> string, n: nat)
    requires n <= |events|
    ensures Texts(events, encode)[..n] == Texts(events[..n], encode)
  {
  }

  lemma FramedLines(events: seq<CaseEvent>, encode: CaseEvent -> string, decode: string -> Option<CaseEvent>)
    requires forall e :: e in events ==> Framed(e, encode, decode)
    ensures OneLines(Texts(events, encode))
  {
    forall i | 0 <= i < |events| ensures OneLine(Texts(events, encode)[i]) {
      assert Framed(events[i], encode, decode);
    }
  }

  /** What a log cut after k bytes gives: the events whose text is whole, and one protocol error if the
      cut went through a text. */
  lemma CutLog(
    events: seq<CaseEvent>, encode: CaseEvent -> string, decode: string -> Option<CaseEvent>, k: nat, n: nat)
    requires forall e :: e in events ==> Framed(e, encode, decode)
    requires k <= |Encoded(events, encode)| && Complete(Texts(events, encode), k, n)
    ensures var got, whole := Scanned(Lines(Encoded(events, encode)[..k]), decode), Replay(events[..n]);
      got == if k <= |Encoded(events[..n], encode)| then whole
             else whole.(errors := whole.errors + [MalformedLine(n + 1)])
  {
    var texts := Texts(events, encode);
    FramedLines(events, encode, decode);
    CutLines(texts, k, n);
    ScannedTexts(events[..n], encode, decode);
    TextsPrefix(events, encode, n);
    if |Joined(texts[..n])| < k {
      var j := FragmentProper(texts, k, n);
      UndecodedFragment(events[n], encode, decode, j);
      ScannedNext(texts[..n], texts[n][..j], decode);
    } else {
      assert texts[..n] + [] == texts[..n];
    }
  }

  lemma UndecodedFragment(e: CaseEvent, encode: CaseEvent -> string, decode: string -> Option<CaseEvent>, j: nat)
    requires Framed(e, encode, decode) && 0 < j < |encode(e)|
    ensures !Blank(encode(e)[..j]) && decode(encode(e)[..j]) == None
  {
    FramedNotBlank(encode(e)[..j]);
  }

  function Named(cases: seq<CaseResult>): seq<CaseResult> {
    if cases == [] then []
    else
      var rest, c := Named(cases[..|cases| - 1]), cases[|cases| - 1];
      if Blank(c.name) then rest else rest + [c]
  }

  /** The result line of case i is line 2i + 2. */
  function NamelessErrors(cases: seq<CaseResult>): seq<ProtocolError> {
    if cases == [] then []
    else
      var rest, c := NamelessErrors(cases[..|cases| - 1]), cases[|cases| - 1];
      if Blank(c.name) then rest + [InvalidLine(2 * |cases|, NameRequired)] else rest
  }

  /** Replaying the first n events of the harness: the finished cases, and the one that has only started. */
  function Recovered(cases: seq<CaseResult>, n: nat): Progress
    requires n <= 2 * |cases|
  {
    Progress(
      Named(cases[..n / 2]),
      if n % 2 == 1 && !Blank(cases[n / 2].name) then cases[n / 2].name else "",
      NamelessErrors(cases[..n / 2]))
  }

  lemma {:induction false} ReplayHarness(cases: seq<CaseResult>, n: nat)
    requires Reported(cases) && n <= 2 * |cases|
    ensures Replay(HarnessEvents(cases)[..n]) == Recovered(cases, n)
  {
    if n > 0 {
      ReplayHarness(cases, n - 1);
      ReplayNext(HarnessEvents(cases), n);
      if n % 2 == 0 {
        RecoveredResult(cases, n);
      } else {
        RecoveredStart(cases, n);
      }
    }
  }

  lemma RecoveredStart(cases: seq<CaseResult>, n: nat)
    requires n <= 2 * |cases| && n % 2 == 1
    ensures WithEvent(Recovered(cases, n - 1), HarnessEvents(cases)[n - 1], n) == Recovered(cases, n)
  {
    assert n / 2 == (n - 1) / 2 && (n - 1) % 2 == 0;
  }

  lemma RecoveredResult(cases: seq<CaseResult>, n: nat)
    requires 0 < n <= 2 * |cases| && n % 2 == 0 && Reported(cases)
    ensures WithEvent(Recovered(cases, n - 1), HarnessEvents(cases)[n - 1], n) == Recovered(cases, n)
  {
    var m := n / 2;
    assert (n - 1) / 2 == m - 1 && (n - 1) % 2 == 1 && n == 2 * m;
    var c := cases[m - 1];
    assert c in cases;
    var e := HarnessEvents(cases)[n - 1];
    assert e == CaseEvent(CASE_RESULT, c.name, c.status, c.durationMs, c.error);
    assert Result(e) == c;
    NamedNext(cases, m);
  }

  lemma ReplayNext(events: seq<CaseEvent>, n: nat)
    requires 0 < n <= |events|
    ensures Replay(events[..n]) == WithEvent(Replay(events[..n - 1]), events[n - 1], n)
  {
    assert events[..n][..n - 1] == events[..n - 1];
  }

  lemma NamedNext(cases: seq<CaseResult>, m: nat)
    requires 0 < m <= |cases|
    ensures Named(cases[..m]) == Named(cases[..m - 1]) + if Blank(cases[m - 1].name) then [] else [cases[m - 1]]
    ensures NamelessErrors(cases[..m]) ==
      NamelessErrors(cases[..m - 1]) + if Blank(cases[m - 1].name) then [InvalidLine(2 * m, NameRequired)] else []
  {
    assert cases[..m][..m - 1] == cases[..m - 1];
  }

  /** Crash recovery. However the log of a harness run is cut, the recovered results are those of exactly
      the named cases whose result text is complete, in order; the case in flight is exactly the one whose
      start text is complete and whose result text is not; and the cut shows as one protocol error
      exactly when it went through a text. */
  lemma CrashRecovery(
    cases: seq<CaseResult>, encode: CaseEvent -> string, decode: string -> Option<CaseEvent>, k: nat, n: nat)
    requires Reported(cases)
    requires forall e :: e in HarnessEvents(cases) ==> Framed(e, encode, decode)
    requires k <= |Encoded(HarnessEvents(cases), encode)| && Complete(Texts(HarnessEvents(cases), encode), k, n)
    ensures var events, got := HarnessEvents(cases), Scanned(Lines(Encoded(HarnessEvents(cases), encode)[..k]), decode);
      && got.cases == Named(cases[..n / 2])
      && got.inFlight == (if n % 2 == 1 && !Blank(cases[n / 2].name) then cases[n / 2].name else "")
      && got.errors == NamelessErrors(cases[..n / 2]) +
           if k <= |Encoded(events[..n], encode)| then [] else [MalformedLine(n + 1)]
  {
    CutLog(HarnessEvents(cases), encode, decode, k, n);
    ReplayHarness(cases, n);
  }

  /** Every cut of every log has its number of whole texts. */
  lemma {:induction false} CompleteExists(texts: seq<string>, k: nat) returns (n: nat)
    requires OneLines(texts) && k <= |Joined(texts)|
    ensures Complete(texts, k, n)
    decreases |texts|
  {
    n := 0;
    if texts != [] && |texts[0]| <= k {
      JoinedPrefix(texts, 1);
      if |texts[0]| == k {
        n := 1;
        assert |texts| > 1 ==> OneLine(texts[1]);
      } else {
        var m := CompleteExists(texts[1..], k - |texts[0]| - 1);
        JoinedPrefix(texts, m + 1);
        n := m + 1;
      }
    }
  }
}
