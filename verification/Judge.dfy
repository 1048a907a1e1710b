/** Turning what a finished or killed child left behind into one judge result, and that result into the
    submission's tests. JSON is a decoder given from outside; failure details keep the values they are
    rendered from. */
module Judge {
  import opened CaseLog
  import opened Options
  import opened Text

  const SCHEMA: int := 1
  const LEGACY_PREFIX: string := "CODEGYM_RESULT "

  const PASSED: string := "passed"
  const FAILED: string := "failed"
  const TIMEOUT: string := "timeout"
  const OUT_OF_MEMORY: string := "out_of_memory"
  const CRASHED: string := "crashed"

  predicate IsCompleted(status: string) { status == PASSED || status == FAILED }
  predicate IsDeath(status: string) { status == TIMEOUT || status == OUT_OF_MEMORY || status == CRASHED }
  predicate IsJudgeStatus(status: string) { IsCompleted(status) || IsDeath(status) }

  /** verdict.json; absent cases differ from no cases. */
  datatype Verdict = Verdict(schema: int, status: string, compileError: Option<string>, cases: Option<seq<CaseResult>>)

  /** The older result line on standard output. */
  datatype Legacy = Legacy(tests: Option<seq<CaseResult>>, compileError: Option<string>)

  datatype Cause =
    Given(text: string) | TimedOutAfter(ms: int) | MemoryExceeded | TerminatedBy(name: string) | NoVerdict

  datatype Detail = Detail(cause: Cause, inFlight: string, errors: seq<ProtocolError>)

  datatype JudgeResult = JudgeResult(
    schema: int, status: string, cases: Option<seq<CaseResult>>, compileError: Option<string>,
    failureDetail: Option<Detail>, exitCode: Option<int>, signal: Option<string>, durationMs: int,
    stdout: string, stderr: string, outputTruncated: bool)

  datatype Input = Input(
    verdictJSON: string, casesJSONL: string, legacyOutput: string, deathStatus: string, failureDetail: string,
    exitCode: Option<int>, signal: Option<string>, durationMs: int, stdout: string, stderr: string,
    outputTruncated: bool)

  datatype Codec = Codec(
    verdict: string -> Option<Verdict>, legacy: string -> Option<Legacy>, event: string -> Option<CaseEvent>)

  predicate ValidCases(cases: seq<CaseResult>) {
    forall i :: 0 <= i < |cases| ==> CaseFaultOf(cases[i]) == None
  }

  // ---- the three sources of a verdict ----

  predicate ValidVerdict(v: Verdict) {
    && v.schema == SCHEMA
    && IsCompleted(v.status)
    && v.cases.Some?
    && ValidCases(v.cases.value)
    && (v.cases.value != [] || v.compileError.Some?)
  }

  method ValidateHarnessVerdict(v: Verdict) returns (ok: bool)
    ensures ok <==> ValidVerdict(v)
  {
    if v.schema != SCHEMA || !IsCompleted(v.status) || v.cases.None? {
      return false;
    }
    var cases := v.cases.value;
    for n := 0 to |cases|
      invariant ValidCases(cases[..n])
    {
      if CaseFaultOf(cases[n]).Some? {
        return false;
      }
      assert cases[..n + 1] == cases[..n] + [cases[n]];
    }
    assert cases[..|cases|] == cases;
    return cases != [] || v.compileError.Some?;
  }

  function TrimBreaks(s: string): string {
    if s != "" && s[|s| - 1] in {'\r', '\n'} then TrimBreaks(s[..|s| - 1]) else s
  }

  /** strings.Split(s, "\n"): one more part than there are newlines. */
  function Split(s: string): (parts: seq<string>)
    ensures parts != []
    decreases |s|
  {
    if Until(s, '\n') == |s| then [s] else [s[..Until(s, '\n')]] + Split(s[Until(s, '\n') + 1..])
  }

  predicate Marked(line: string) {
    LEGACY_PREFIX <= DropCR(line)
  }

  function Marking(line: string): string
    requires Marked(line)
  {
    DropCR(line)[|LEGACY_PREFIX|..]
  }

  /** What follows the prefix on the last line that carries it. */
  function LastMarking(lines: seq<string>): Option<string> {
    if lines == [] then None
    else if Marked(lines[|lines| - 1]) then Some(Marking(lines[|lines| - 1]))
    else LastMarking(lines[..|lines| - 1])
  }

  lemma LastMarkingStep(lines: seq<string>, index: nat)
    requires index < |lines|
    ensures LastMarking(lines[..index + 1])
         == if Marked(lines[index]) then Some(Marking(lines[index])) else LastMarking(lines[..index])
  {
    assert lines[..index + 1][..index] == lines[..index];
  }

  /** The verdict a legacy result stands for: failed exactly when a test or the compilation failed. */
  function Judged(l: Legacy): Option<Verdict> {
    if l.tests.None? || (l.tests.value == [] && l.compileError.None?) || !ValidCases(l.tests.value) then None
    else
      var failed := l.compileError.Some? || exists i :: 0 <= i < |l.tests.value| && l.tests.value[i].status == "fail";
      Some(Verdict(SCHEMA, if failed then FAILED else PASSED, l.compileError, l.tests))
  }

  function LegacyVerdict(output: string, decode: string -> Option<Legacy>): Option<Verdict> {
    match LastMarking(Split(TrimBreaks(output)))
    case None => None
    case Some(json) => (match decode(json) case None => None case Some(l) => Judged(l))
  }

  method ParseLegacyVerdict(output: string, decode: string -> Option<Legacy>) returns (v: Option<Verdict>)
    ensures v == LegacyVerdict(output, decode)
  {
    var lines := Split(TrimBreaks(output));
    var index := |lines|;
    assert lines[..index] == lines;
    while index > 0
      invariant 0 <= index <= |lines|
      invariant LastMarking(lines) == LastMarking(lines[..index])
    {
      index := index - 1;
      LastMarkingStep(lines, index);
      if !Marked(lines[index]) {
        continue;
      }
      var decoded := decode(Marking(lines[index]));
      if decoded.None? {
        return None;
      }
      v := JudgeLegacy(decoded.value);
      return;
    }
    return None;
  }

  method JudgeLegacy(legacy: Legacy) returns (v: Option<Verdict>)
    ensures v == Judged(legacy)
  {
    if legacy.tests.None? || (legacy.tests.value == [] && legacy.compileError.None?) {
      return None;
    }
    var tests, status := legacy.tests.value, PASSED;
    for n := 0 to |tests|
      invariant ValidCases(tests[..n])
      invariant status == if exists i :: 0 <= i < n && tests[i].status == "fail" then FAILED else PASSED
    {
      if CaseFaultOf(tests[n]).Some? {
        return None;
      }
      assert tests[..n + 1] == tests[..n] + [tests[n]];
      if tests[n].status == "fail" {
        status := FAILED;
      }
    }
    assert tests[..|tests|] == tests;
    if legacy.compileError.Some? {
      status := FAILED;
    }
    return Some(Verdict(SCHEMA, status, legacy.compileError, Some(tests)));
  }

  // ---- reconstruction ----

  function WrittenVerdict(input: Input, codec: Codec): Option<Verdict> {
    if Blank(input.verdictJSON) then None
    else match codec.verdict(input.verdictJSON)
      case None => None
      case Some(v) => if ValidVerdict(v) then Some(v) else None
  }

  /** The verdict file if it is valid, else the legacy line. */
  function Evidence(input: Input, codec: Codec): Option<Verdict> {
    var written := WrittenVerdict(input, codec);
    if written.Some? then written
    else LegacyVerdict(if input.legacyOutput == "" then input.stdout else input.legacyOutput, codec.legacy)
  }

  function VerdictErrors(input: Input, codec: Codec): seq<ProtocolError> {
    if Blank(input.verdictJSON) then []
    else match codec.verdict(input.verdictJSON)
      case None => [UndecodableVerdict]
      case Some(v) => if ValidVerdict(v) then [] else [InvalidVerdict]
  }

  function DefaultCause(status: string, durationMs: int, signal: Option<string>): Cause {
    if status == TIMEOUT then TimedOutAfter(durationMs)
    else if status == OUT_OF_MEMORY then MemoryExceeded
    else if status == CRASHED && signal.Some? && signal.value != "" then TerminatedBy(signal.value)
    else NoVerdict
  }

  function DeathStatus(input: Input): string {
    if IsDeath(input.deathStatus) then input.deathStatus else CRASHED
  }

  function Duration(input: Input): int {
    if input.durationMs < 0 then 0 else input.durationMs
  }

  function Blamed(input: Input, progress: Progress, codec: Codec): Detail {
    var given := Trim(input.failureDetail);
    Detail(if given == "" then DefaultCause(DeathStatus(input), Duration(input), input.signal) else Given(given),
           progress.inFlight, VerdictErrors(input, codec) + progress.errors)
  }

  /** What the run amounts to: its verdict if there is evidence of one, else its death and the cases that
      finished before. */
  function Reconstruction(input: Input, codec: Codec): JudgeResult {
    var evidence, progress := Evidence(input, codec), Scanned(Lines(input.casesJSONL), codec.event);
    JudgeResult(
      SCHEMA,
      if evidence.Some? then evidence.value.status else DeathStatus(input),
      if evidence.Some? then evidence.value.cases else Some(progress.cases),
      if evidence.Some? then evidence.value.compileError else None,
      if evidence.Some? then None else Some(Blamed(input, progress, codec)),
      input.exitCode, input.signal, Duration(input), input.stdout, input.stderr, input.outputTruncated)
  }

  method ReconstructJudgeResult(input: Input, codec: Codec) returns (result: JudgeResult)
    ensures result == Reconstruction(input, codec)
  {
    result := JudgeResult(
      SCHEMA, "", Some([]), None, None, input.exitCode, input.signal,
      if input.durationMs > 0 then input.durationMs else 0,
      input.stdout, input.stderr, input.outputTruncated);
    var protocolErrors: seq<ProtocolError> := [];
    if !Blank(input.verdictJSON) {
      var decoded := codec.verdict(input.verdictJSON);
      if decoded.Some? {
        var valid := ValidateHarnessVerdict(decoded.value);
        if valid {
          return Closed(result, decoded.value);
        }
        protocolErrors := protocolErrors + [InvalidVerdict];
      } else {
        protocolErrors := protocolErrors + [UndecodableVerdict];
      }
    }
    var legacy := input.legacyOutput;
    if legacy == "" {
      legacy := input.stdout;
    }
    var verdict := ParseLegacyVerdict(legacy, codec.legacy);
    if verdict.Some? {
      return Closed(result, verdict.value);
    }
    assert Evidence(input, codec) == None && protocolErrors == VerdictErrors(input, codec);
    var cases, inFlight, progressErrors := ParseCaseProgress(input.casesJSONL, codec.event);
    protocolErrors := protocolErrors + progressErrors;
    var status := input.deathStatus;
    if !IsDeath(status) {
      status := CRASHED;
    }
    var given := Trim(input.failureDetail);
    var cause := Given(given);
    if given == "" {
      cause := DefaultCause(status, result.durationMs, input.signal);
    }
    var detail := Detail(cause, inFlight, protocolErrors);
    assert detail == Blamed(input, Scanned(Lines(input.casesJSONL), codec.event), codec);
    result := result.(status := status, cases := Some(cases), failureDetail := Some(detail));
  }

  function Closed(result: JudgeResult, v: Verdict): JudgeResult {
    result.(status := v.status, cases := v.cases, compileError := v.compileError)
  }

  // ---- reading a result back ----

  datatype Rejection = Undecodable | WrongSchema | UnknownStatus | NegativeTime | BadCase(fault: CaseFault)

  datatype Parsed = Accepted(result: JudgeResult) | Rejected(reason: Rejection)

  function CasesOf(r: JudgeResult): seq<CaseResult> {
    if r.cases.Some? then r.cases.value else []
  }

  /** The result is well-formed: the promise ReconstructJudgeResult makes. */
  predicate WellFormed(r: JudgeResult) {
    r.schema == SCHEMA && IsJudgeStatus(r.status) && r.durationMs >= 0 && ValidCases(CasesOf(r))
  }

  method ParseJudgeResult(data: string, decode: string -> Option<JudgeResult>) returns (r: Parsed)
    ensures r.Accepted? <==> decode(data).Some? && WellFormed(decode(data).value)
    ensures r.Accepted? ==> r.result == decode(data).value.(cases := Some(CasesOf(decode(data).value)))
    ensures r == Rejected(Undecodable) <==> decode(data).None?
    ensures r == Rejected(WrongSchema) <==> decode(data).Some? && decode(data).value.schema != SCHEMA
    ensures r == Rejected(UnknownStatus) <==>
      decode(data).Some? && decode(data).value.schema == SCHEMA && !IsJudgeStatus(decode(data).value.status)
    ensures r == Rejected(NegativeTime) <==>
      decode(data).Some? && decode(data).value.schema == SCHEMA && IsJudgeStatus(decode(data).value.status)
      && decode(data).value.durationMs < 0
    ensures forall fault :: r == Rejected(BadCase(fault)) ==>
      exists c :: c in CasesOf(decode(data).value) && CaseFaultOf(c) == Some(fault)
  {
    var decoded := decode(data);
    if decoded.None? {
      return Rejected(Undecodable);
    }
    var result := decoded.value;
    if result.schema != SCHEMA {
      return Rejected(WrongSchema);
    }
    if !IsJudgeStatus(result.status) {
      return Rejected(UnknownStatus);
    }
    if result.durationMs < 0 {
      return Rejected(NegativeTime);
    }
    var cases: seq<CaseResult> := [];
    if result.cases.Some? {
      cases := result.cases.value;
    }
    for n := 0 to |cases|
      invariant ValidCases(cases[..n])
    {
      if CaseFaultOf(cases[n]).Some? {
        assert cases[n] in cases;
        return Rejected(BadCase(CaseFaultOf(cases[n]).value));
      }
      assert cases[..n + 1] == cases[..n] + [cases[n]];
    }
    assert cases[..|cases|] == cases;
    return Accepted(result.(cases := Some(cases)));
  }

  // ---- the submission's tests ----

  datatype TestResult = TestResult(
    status: string, passed: nat, failed: nat, total: nat, durationMs: int, testCases: seq<CaseResult>,
    compileError: Option<string>)

  function Count(cases: seq<CaseResult>, status: string): nat {
    if cases == [] then 0
    else Count(cases[..|cases| - 1], status) + if cases[|cases| - 1].status == status then 1 else 0
  }

  predicate Tallied(cases: seq<CaseResult>) {
    forall i :: 0 <= i < |cases| ==> cases[i].status in {"pass", "fail"} && cases[i].durationMs >= 0
  }

  /** The judge results that become tests. */
  predicate Gradable(judge: JudgeResult) {
    && judge.schema == SCHEMA && IsCompleted(judge.status)
    && Tallied(CasesOf(judge))
    && (CasesOf(judge) != [] || judge.compileError.Some?)
  }

  /** What the tests of a judge result say. */
  predicate Grades(judge: JudgeResult, t: TestResult) {
    var cases := CasesOf(judge);
    && t.testCases == cases && t.compileError == judge.compileError && t.durationMs == judge.durationMs
    && t.passed == Count(cases, "pass") && t.failed == Count(cases, "fail") && t.total == |cases|
    && t.status == if judge.status == PASSED && judge.compileError.None? && t.failed == 0 then "pass" else "fail"
  }

  method TestResultFromJudge(judge: JudgeResult) returns (r: Option<TestResult>)
    ensures r.Some? <==> Gradable(judge)
    ensures r.Some? ==> Grades(judge, r.value)
  {
    if judge.schema != SCHEMA || !IsCompleted(judge.status) {
      return None;
    }
    var cases: seq<CaseResult> := CasesOf(judge);
    var status, passed, failed := "pass", 0, 0;
    var testCases: seq<CaseResult> := [];
    for n := 0 to |cases|
      invariant testCases == cases[..n] && Tallied(cases[..n])
      invariant passed == Count(cases[..n], "pass") && failed == Count(cases[..n], "fail")
      invariant status == if failed == 0 then "pass" else "fail"
    {
      var mapped := cases[n];
      assert cases[..n + 1] == cases[..n] + [mapped] && cases[..n + 1][..n] == cases[..n];
      if mapped.status == "pass" {
        passed := passed + 1;
      } else if mapped.status == "fail" {
        failed, status := failed + 1, "fail";
      } else {
        return None;
      }
      if mapped.durationMs < 0 {
        return None;
      }
      testCases := testCases + [mapped];
    }
    assert cases[..|cases|] == cases;
    if judge.status == FAILED || judge.compileError.Some? {
      status := "fail";
    }
    if testCases == [] && judge.compileError.None? {
      return None;
    }
    return Some(TestResult(status, passed, failed, |cases|, judge.durationMs, testCases, judge.compileError));
  }

  // ---- the promises ----

  lemma {:induction false} ScannedValid(lines: seq<string>, decode: string -> Option<CaseEvent>)
    ensures ValidCases(Scanned(lines, decode).cases)
  {
    if lines != [] {
      ScannedValid(lines[..|lines| - 1], decode);
    }
  }

  lemma EvidenceValid(input: Input, codec: Codec)
    requires Evidence(input, codec).Some?
    ensures ValidVerdict(Evidence(input, codec).value)
  {
  }

  /** Whatever a child leaves behind, the reconstruction passes every check that reading it back makes:
      for all inputs and all decoders. */
  lemma ReconstructionWellFormed(input: Input, codec: Codec)
    ensures WellFormed(Reconstruction(input, codec)) && Reconstruction(input, codec).cases.Some?
  {
    ScannedValid(Lines(input.casesJSONL), codec.event);
    if Evidence(input, codec).Some? {
      EvidenceValid(input, codec);
    }
  }

  /** A reconstruction is graded exactly when the child left evidence of a verdict, and its status says so:
      a death never becomes tests. */
  lemma GradedIffEvidence(input: Input, codec: Codec)
    ensures var r := Reconstruction(input, codec);
      && (Gradable(r) <==> Evidence(input, codec).Some?)
      && (Gradable(r) <==> IsCompleted(r.status))
      && (!Gradable(r) <==> IsDeath(r.status))
      && (!Gradable(r) <==> r.failureDetail.Some?)
  {
    if Evidence(input, codec).Some? {
      EvidenceValid(input, codec);
      var cases := CasesOf(Reconstruction(input, codec));
      forall i | 0 <= i < |cases| ensures cases[i].status in {"pass", "fail"} && cases[i].durationMs >= 0 {
        assert CaseFaultOf(cases[i]) == None;
      }
    }
  }

  lemma {:induction false} CountsAdd(cases: seq<CaseResult>)
    requires Tallied(cases)
    ensures Count(cases, "pass") + Count(cases, "fail") == |cases|
    ensures Count(cases, "fail") == 0 <==> forall i :: 0 <= i < |cases| ==> cases[i].status == "pass"
  {
    if cases != [] {
      var front, last := cases[..|cases| - 1], cases[|cases| - 1];
      CountsAdd(front);
      assert cases == front + [last];
      assert last.status in {"pass", "fail"};
    }
  }

  /** Graded tests are the judge's cases, with its compile error and time; they add up; and "pass" means what it
      says: at least one test, all of them passed, nothing failed to compile, and the judge agreed. */
  lemma GradesAddUp(judge: JudgeResult, t: TestResult)
    requires Gradable(judge) && Grades(judge, t)
    ensures t.testCases == (if judge.cases.Some? then judge.cases.value else [])
    ensures t.compileError == judge.compileError && t.durationMs == judge.durationMs
    ensures t.passed + t.failed == t.total == |t.testCases|
    ensures t.status == "pass" <==>
      && judge.status == PASSED && judge.compileError.None?
      && forall i :: 0 <= i < |t.testCases| ==> t.testCases[i].status == "pass"
    ensures t.status == "pass" ==> t.total > 0 && t.failed == 0 && t.passed == t.total
  {
    CountsAdd(CasesOf(judge));
  }

  /** For a legacy verdict, grading agrees with the judge's own status; a verdict file may disagree. */
  lemma LegacyGradesAgree(l: Legacy, judge: JudgeResult, t: TestResult)
    requires Judged(l).Some? && judge.status == Judged(l).value.status
    requires judge.cases == l.tests && judge.compileError == l.compileError
    requires Gradable(judge) && Grades(judge, t)
    ensures t.status == "pass" <==> judge.status == PASSED
  {
    CountsAdd(CasesOf(judge));
    assert forall i :: 0 <= i < |l.tests.value| && l.tests.value[i].status != "pass" ==>
      l.tests.value[i].status == "fail";
  }

  /** A written verdict "passed" with a failed case is graded "fail". */
  lemma WrittenVerdictMayDisagree(judge: JudgeResult, t: TestResult)
    requires Gradable(judge) && Grades(judge, t)
    requires judge.status == PASSED && exists c :: c in CasesOf(judge) && c.status == "fail"
    ensures t.status == "fail" && t.failed > 0
  {
    CountsAdd(CasesOf(judge));
    var c :| c in CasesOf(judge) && c.status == "fail";
    var i :| 0 <= i < |CasesOf(judge)| && CasesOf(judge)[i] == c;
  }

  /** A child killed without a verdict while it appended its case log: the result is a death that carries
      exactly the finished cases and names the one that was running. */
  lemma KilledRun(input: Input, codec: Codec, cases: seq<CaseResult>, encode: CaseEvent -> string, k: nat, n: nat)
    requires Evidence(input, codec) == None
    requires Reported(cases)
    requires forall e :: e in HarnessEvents(cases) ==> Framed(e, encode, codec.event)
    requires k <= |Encoded(HarnessEvents(cases), encode)| && Complete(Texts(HarnessEvents(cases), encode), k, n)
    requires input.casesJSONL == Encoded(HarnessEvents(cases), encode)[..k]
    ensures var r := Reconstruction(input, codec);
      && r.status == (if input.deathStatus in {"timeout", "out_of_memory", "crashed"} then input.deathStatus
                      else "crashed")
      && !Gradable(r)
      && r.cases == Some(Named(cases[..n / 2]))
      && r.failureDetail.Some?
      && r.failureDetail.value.inFlight == if n % 2 == 1 && !Blank(cases[n / 2].name) then cases[n / 2].name else ""
  {
    CrashRecovery(cases, encode, codec.event, k, n);
    GradedIffEvidence(input, codec);
  }
}
