/** Which of the things a child leaves behind decides its result, said of the inputs: the verdict file, else
    the last marked output line, else the way it died. */
module JudgeSources {
  import opened CaseLog
  import opened Judge
  import opened Options
  import opened Text

  predicate GoodCase(c: CaseResult) {
    !Blank(c.name) && c.status in {"pass", "fail"} && c.durationMs >= 0
  }

  predicate GoodCases(cases: seq<CaseResult>) {
    forall i :: 0 <= i < |cases| ==> GoodCase(cases[i])
  }

  /** The verdict file holds this verdict, and it is acceptable. */
  predicate FileSays(input: Input, codec: Codec, v: Verdict) {
    && !Blank(input.verdictJSON) && codec.verdict(input.verdictJSON) == Some(v)
    && v.schema == 1 && v.status in {"passed", "failed"}
    && v.cases.Some? && GoodCases(v.cases.value)
    && (v.cases.value != [] || v.compileError.Some?)
  }

  ghost predicate FileSilent(input: Input, codec: Codec) {
    forall v :: !FileSays(input, codec, v)
  }

  /** The line is the prefix and this text, with or without a carriage return behind it. */
  predicate Marks(line: string, json: string) {
    || line == "CODEGYM_RESULT " + json + "\r"
    || (line == "CODEGYM_RESULT " + json && line[|line| - 1] != '\r')
  }

  /** The retained output, or standard output when nothing was retained. */
  function OutputOf(input: Input): string {
    if input.legacyOutput == "" then input.stdout else input.legacyOutput
  }

  /** The last marked line of the retained output, or of standard output when nothing was retained, holds this
      result, and it is acceptable. */
  ghost predicate LineSays(input: Input, codec: Codec, l: Legacy) {
    var lines := Split(TrimBreaks(OutputOf(input)));
    Usable(l) && exists i, json :: LastMarks(lines, i, json) && codec.legacy(json) == Some(l)
  }

  /** The result has tests, all good ones, or a compile error besides. */
  predicate Usable(l: Legacy) {
    l.tests.Some? && GoodCases(l.tests.value) && (l.tests.value != [] || l.compileError.Some?)
  }

  ghost predicate LastMarks(lines: seq<string>, i: int, json: string) {
    && 0 <= i < |lines| && Marks(lines[i], json)
    && forall j, other :: i < j < |lines| ==> !Marks(lines[j], other)
  }

  ghost predicate LineSilent(input: Input, codec: Codec) {
    forall l :: !LineSays(input, codec, l)
  }

  // ---- the three sources ----

  lemma GoodCaseIff(c: CaseResult)
    ensures CaseFaultOf(c) == None <==> GoodCase(c)
  {
  }

  lemma GoodCasesIff(cases: seq<CaseResult>)
    ensures ValidCases(cases) <==> GoodCases(cases)
  {
    forall i | 0 <= i < |cases| ensures CaseFaultOf(cases[i]) == None <==> GoodCase(cases[i]) {
      GoodCaseIff(cases[i]);
    }
  }

  lemma FileIff(input: Input, codec: Codec, v: Verdict)
    ensures WrittenVerdict(input, codec) == Some(v) <==> FileSays(input, codec, v)
  {
    if v.cases.Some? {
      GoodCasesIff(v.cases.value);
    }
  }

  lemma MarksIff(line: string, json: string)
    ensures Marks(line, json) <==> Marked(line) && Marking(line) == json
  {
    var p := "CODEGYM_RESULT ";
    assert LEGACY_PREFIX == p;
    if Marks(line, json) {
      assert DropCR(line) == p + json;
    }
    if Marked(line) && Marking(line) == json {
      assert DropCR(line) == p + json;
      assert line == p + json || line == p + json + "\r";
    }
  }

  lemma {:induction false} LastMarkingIff(lines: seq<string>, json: string)
    ensures LastMarking(lines) == Some(json) <==> exists i :: LastMarks(lines, i, json)
  {
    if lines != [] {
      var front, last := lines[..|lines| - 1], lines[|lines| - 1];
      LastMarkingIff(front, json);
      assert lines == front + [last];
      if Marked(last) {
        MarkedLast(front, last, json);
      } else {
        MarkedBefore(front, last, json);
      }
    }
  }

  lemma MarkedLast(front: seq<string>, last: string, json: string)
    requires Marked(last)
    ensures Marking(last) == json <==> exists i :: LastMarks(front + [last], i, json)
  {
    var lines := front + [last];
    MarksIff(last, json);
    MarksIff(last, Marking(last));
    assert lines[|front|] == last;
    if Marking(last) == json {
      assert LastMarks(lines, |front|, json);
    }
  }

  lemma MarkedBefore(front: seq<string>, last: string, json: string)
    requires !Marked(last)
    ensures (exists i :: LastMarks(front + [last], i, json)) <==> exists i :: LastMarks(front, i, json)
  {
    var lines := front + [last];
    forall other ensures !Marks(last, other) {
      MarksIff(last, other);
    }
    if i :| LastMarks(lines, i, json) {
      assert forall j :: i < j < |front| ==> lines[j] == front[j];
      assert LastMarks(front, i, json);
    }
    if i :| LastMarks(front, i, json) {
      assert forall j :: i <= j < |front| ==> lines[j] == front[j];
      assert LastMarks(lines, i, json);
    }
  }

  lemma JudgedIff(l: Legacy)
    ensures Judged(l).Some? <==> Usable(l)
  {
    if l.tests.Some? {
      GoodCasesIff(l.tests.value);
    }
  }

  lemma LineMarks(input: Input, codec: Codec, l: Legacy)
    requires LineSays(input, codec, l)
    ensures var json := LastMarking(Split(TrimBreaks(OutputOf(input))));
      json.Some? && codec.legacy(json.value) == Some(l)
  {
    var lines := Split(TrimBreaks(OutputOf(input)));
    var i, json :| LastMarks(lines, i, json) && codec.legacy(json) == Some(l);
    LastMarkingIff(lines, json);
  }

  lemma MarksLine(input: Input, codec: Codec, json: string, l: Legacy)
    requires LastMarking(Split(TrimBreaks(OutputOf(input)))) == Some(json) && codec.legacy(json) == Some(l) && Usable(l)
    ensures LineSays(input, codec, l)
  {
    var lines := Split(TrimBreaks(OutputOf(input)));
    LastMarkingIff(lines, json);
    var i :| LastMarks(lines, i, json);
    assert LastMarks(lines, i, json) && codec.legacy(json) == Some(l);
  }

  /** Whether a case of the list failed. */
  predicate AnyFailed(cases: seq<CaseResult>) {
    exists i :: 0 <= i < |cases| && cases[i].status == "fail"
  }

  /** A verdict file that is acceptable decides status, cases and compile error, whatever else there is. */
  lemma FileDecides(input: Input, codec: Codec, v: Verdict)
    requires FileSays(input, codec, v)
    ensures var r := Reconstruction(input, codec);
      r.status == v.status && r.cases == v.cases && r.compileError == v.compileError && r.failureDetail == None
  {
    FileIff(input, codec, v);
  }

  lemma EvidenceOfLine(input: Input, codec: Codec)
    requires FileSilent(input, codec)
    ensures Evidence(input, codec) == LegacyVerdict(OutputOf(input), codec.legacy)
  {
    if WrittenVerdict(input, codec).Some? {
      FileIff(input, codec, WrittenVerdict(input, codec).value);
    }
  }

  /** Else the last marked line does, if it is acceptable: failed when a test or the compilation failed. */
  lemma LineDecides(input: Input, codec: Codec, l: Legacy)
    requires FileSilent(input, codec) && LineSays(input, codec, l)
    ensures var r := Reconstruction(input, codec);
      && r.status == (if l.compileError.Some? || AnyFailed(l.tests.value) then "failed" else "passed")
      && r.cases == l.tests && r.compileError == l.compileError && r.failureDetail == None
  {
    EvidenceOfLine(input, codec);
    LineMarks(input, codec, l);
    JudgedIff(l);
  }

  /** Else the child died: of what it is said to have died of, or it crashed. The cases are those the log
      recovers. The detail names the given cause, or the one that goes with the status, the case in flight, and
      what was wrong with the verdict file and with the log. */
  lemma DeathDecides(input: Input, codec: Codec)
    requires FileSilent(input, codec) && LineSilent(input, codec)
    ensures Evidence(input, codec) == None
    ensures var r := Reconstruction(input, codec);
      && r.status == (if input.deathStatus in {"timeout", "out_of_memory", "crashed"} then input.deathStatus
                      else "crashed")
      && r.compileError == None && r.failureDetail.Some?
      && CauseFits(r.failureDetail.value.cause, input, r.status)
      && var progress := Scanned(Lines(input.casesJSONL), codec.event);
      && r.cases == Some(progress.cases) && r.failureDetail.value.inFlight == progress.inFlight
      && r.failureDetail.value.errors ==
           (if Blank(input.verdictJSON) then []
            else if codec.verdict(input.verdictJSON) == None then [UndecodableVerdict]
            else [InvalidVerdict]) + progress.errors
  {
    EvidenceOfLine(input, codec);
    var json := LastMarking(Split(TrimBreaks(OutputOf(input))));
    if json.Some? && codec.legacy(json.value).Some? {
      var l := codec.legacy(json.value).value;
      JudgedIff(l);
      if Usable(l) {
        MarksLine(input, codec, json.value, l);
      }
    }
  }

  predicate CauseFits(cause: Cause, input: Input, status: string) {
    if Trim(input.failureDetail) != "" then cause == Given(Trim(input.failureDetail))
    else if status == "timeout" then cause == TimedOutAfter(if input.durationMs < 0 then 0 else input.durationMs)
    else if status == "out_of_memory" then cause == MemoryExceeded
    else if input.signal.Some? && input.signal.value != "" then cause == TerminatedBy(input.signal.value)
    else cause == NoVerdict
  }

  /** Everything else is passed through; a time is never negative. */
  lemma PassedThrough(input: Input, codec: Codec)
    ensures var r := Reconstruction(input, codec);
      && r.schema == 1 && r.exitCode == input.exitCode && r.signal == input.signal
      && r.stdout == input.stdout && r.stderr == input.stderr && r.outputTruncated == input.outputTruncated
      && r.durationMs >= 0 && (input.durationMs >= 0 ==> r.durationMs == input.durationMs)
  {
  }

  // ---- lines ----

  /** Splitting is undone by joining the parts with newlines, of which no part has any. */
  lemma {:induction false} SplitJoins(s: string)
    ensures Rejoined(Split(s)) == s
    ensures forall i :: 0 <= i < |Split(s)| ==> '\n' !in Split(s)[i]
    decreases |s|
  {
    var k := Until(s, '\n');
    if k < |s| {
      SplitJoins(s[k + 1..]);
      var rest := Split(s[k + 1..]);
      assert Split(s) == [s[..k]] + rest && ([s[..k]] + rest)[1..] == rest;
      assert s == s[..k] + "\n" + s[k + 1..];
    }
  }

  function Rejoined(parts: seq<string>): string
    requires parts != []
  {
    if |parts| == 1 then parts[0] else parts[0] + "\n" + Rejoined(parts[1..])
  }

  /** Only line breaks are trimmed, and all at the end. */
  lemma {:induction false} BreaksTrimmed(s: string)
    ensures TrimBreaks(s) <= s && forall i :: |TrimBreaks(s)| <= i < |s| ==> s[i] in {'\r', '\n'}
    ensures TrimBreaks(s) != "" ==> TrimBreaks(s)[|TrimBreaks(s)| - 1] !in {'\r', '\n'}
  {
    if s != "" && s[|s| - 1] in {'\r', '\n'} {
      BreaksTrimmed(s[..|s| - 1]);
    }
  }
}
