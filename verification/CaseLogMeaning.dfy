/** What the recovered progress says of the log, line by line. */
module CaseLogMeaning {
  import opened CaseLog
  import opened Options
  import opened Sequences
  import opened Text

  type Decoder = string -> Option<CaseEvent>

  // ---- single lines ----

  /** The line starts the case with this name. */
  predicate Starts(line: string, decode: Decoder, name: string) {
    && !Blank(line) && !Blank(name)
    && match decode(line) case None => false case Some(e) => e.event == "case_start" && e.name == name
  }

  /** The result that the line reports, if it can be used: for a named case, passed or failed, in no negative
      time. */
  function ReportOf(line: string, decode: Decoder): Option<CaseResult> {
    if Blank(line) then None
    else match decode(line)
      case None => None
      case Some(e) =>
        if e.event == "case_result" && !Blank(e.name) && e.status in {"pass", "fail"} && e.durationMs >= 0
        then Some(CaseResult(e.name, e.status, e.durationMs, e.error)) else None
  }

  /** What is wrong with the line, number n: it is no event, or a result that cannot be used. */
  function ErrorOf(line: string, n: nat, decode: Decoder): Option<ProtocolError> {
    if Blank(line) then None
    else match decode(line)
      case None => Some(MalformedLine(n))
      case Some(e) =>
        if e.event != "case_result" then None
        else if Blank(e.name) then Some(InvalidLine(n, NameRequired))
        else if e.status !in {"pass", "fail"} then Some(InvalidLine(n, InvalidStatus))
        else if e.durationMs < 0 then Some(InvalidLine(n, NegativeDuration))
        else None
  }

  predicate Reports(line: string, decode: Decoder, name: string) {
    ReportOf(line, decode).Some? && ReportOf(line, decode).value.name == name
  }

  function AsList<T>(x: Option<T>): seq<T> {
    if x.Some? then [x.value] else []
  }

  /** What one line adds. */
  lemma LineAdds(p: Progress, line: string, n: nat, decode: Decoder)
    ensures var q := WithLine(p, line, n, decode);
      && q.cases == p.cases + AsList(ReportOf(line, decode))
      && q.errors == p.errors + AsList(ErrorOf(line, n, decode))
      && (forall name :: Starts(line, decode, name) ==> q.inFlight == name)
      && (forall name :: Reports(line, decode, name) && p.inFlight == name ==> q.inFlight == "")
      && (forall name :: Reports(line, decode, name) && p.inFlight != name ==> q.inFlight == p.inFlight)
      && ((forall name :: !Starts(line, decode, name) && !Reports(line, decode, name)) ==> q.inFlight == p.inFlight)
  {
    if !Blank(line) && decode(line).Some? {
      var e := decode(line).value;
      assert e.event == "case_start" && !Blank(e.name) ==> Starts(line, decode, e.name);
      assert e.event == "case_result" && CaseFaultOf(Result(e)) == None ==> Reports(line, decode, e.name);
    }
  }

  // ---- whole logs ----

  function CasesIn(lines: seq<string>, decode: Decoder): seq<CaseResult> {
    if lines == [] then []
    else CasesIn(lines[..|lines| - 1], decode) + AsList(ReportOf(lines[|lines| - 1], decode))
  }

  function ErrorsIn(lines: seq<string>, decode: Decoder): seq<ProtocolError> {
    if lines == [] then []
    else ErrorsIn(lines[..|lines| - 1], decode) + AsList(ErrorOf(lines[|lines| - 1], |lines|, decode))
  }

  /** The cases are the usable results, and the errors are what is wrong, both line by line. */
  lemma {:induction false} ListsMean(lines: seq<string>, decode: Decoder)
    ensures Scanned(lines, decode).cases == CasesIn(lines, decode)
    ensures Scanned(lines, decode).errors == ErrorsIn(lines, decode)
  {
    if lines != [] {
      ListsMean(lines[..|lines| - 1], decode);
      LineAdds(Scanned(lines[..|lines| - 1], decode), lines[|lines| - 1], |lines|, decode);
    }
  }

  /** Line i is the last to start a case. */
  ghost predicate LastStart(lines: seq<string>, decode: Decoder, i: int, name: string) {
    && 0 <= i < |lines| && Starts(lines[i], decode, name)
    && forall k, other :: i < k < |lines| ==> !Starts(lines[k], decode, other)
  }

  /** A later line reports the result of that case. */
  ghost predicate EndsAfter(lines: seq<string>, decode: Decoder, i: int, name: string) {
    exists k :: 0 <= k < |lines| && i < k && Reports(lines[k], decode, name)
  }

  /** The case in flight is the one last started, unless its result came since; none was before any start. */
  lemma {:induction false} InFlightMeans(lines: seq<string>, decode: Decoder)
    ensures var flying := Scanned(lines, decode).inFlight;
      && (forall i, name :: LastStart(lines, decode, i, name) ==>
            flying == if EndsAfter(lines, decode, i, name) then "" else name)
      && ((forall i, name :: 0 <= i < |lines| ==> !Starts(lines[i], decode, name)) ==> flying == "")
  {
    if lines != [] {
      var front, line := lines[..|lines| - 1], lines[|lines| - 1];
      InFlightMeans(front, decode);
      LineAdds(Scanned(front, decode), line, |lines|, decode);
      forall i, name | LastStart(lines, decode, i, name)
        ensures Scanned(lines, decode).inFlight == if EndsAfter(lines, decode, i, name) then "" else name
      {
        if i < |front| {
          FlightGoesOn(front, line, decode, i, name);
        }
      }
    }
  }

  lemma FlightGoesOn(front: seq<string>, line: string, decode: Decoder, i: int, name: string)
    requires LastStart(front + [line], decode, i, name) && i < |front|
    requires Scanned(front, decode).inFlight == if EndsAfter(front, decode, i, name) then "" else name
    ensures LastStart(front, decode, i, name)
    ensures Scanned(front + [line], decode).inFlight
      == if EndsAfter(front + [line], decode, i, name) then "" else name
  {
    var all := front + [line];
    assert all[..|front|] == front;
    LineAdds(Scanned(front, decode), line, |all|, decode);
    assert !Starts(all[|front|], decode, name);
    if k :| 0 <= k < |front| && i < k && Reports(front[k], decode, name) {
      assert Reports(all[k], decode, name);
    }
    if k :| 0 <= k < |all| && i < k && Reports(all[k], decode, name) {
      if k < |front| { assert Reports(front[k], decode, name); }
    }
  }
}
