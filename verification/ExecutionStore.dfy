/** The execution package's in-memory store: runs per scope and submission-request reservations.
    Each method is atomic (the original holds a mutex), and its effect is a function of the maps it
    changes; the submission protocol takes those functions as its steps. */
module ExecutionStore {
  import opened Options
  import opened Text

  datatype RunStatus = Queued | Running | Passed | Failed | Timeout | OutOfMemory | Crashed | Error

  /** The status a supervisor result carries; Unknown is any string outside the protocol. */
  datatype JudgeStatus =
    JudgePassed | JudgeFailed | JudgeTimeout | JudgeOutOfMemory | JudgeCrashed | Unknown(text: string)

  /** The fields of a run the submission flow reads. `completed` says that the completion time is set,
      `gradable` that the run's judge output decodes into a test result. */
  datatype Run = Run(
    id: string, status: RunStatus, judge: Option<JudgeStatus>, completed: bool, gradable: bool)

  datatype RequestStatus = InProgress | Completed

  datatype Reservation = Reservation(
    token: string, fingerprint: string, runID: string, submissionID: string,
    status: RequestStatus, created: bool)

  datatype StoreError = RequestConflict | RequestNotFound | RunNotFound

  datatype Result<+T> = Ok(value: T) | Err(error: StoreError)

  type Runs = map<string, seq<Run>>
  type Requests = map<string, Reservation>

  function RunsOf(runs: Runs, scope: string): seq<Run> {
    if scope in runs then runs[scope] else []
  }

  function FirstWith(rs: seq<Run>, id: string): Option<Run> {
    if rs == [] then None else if rs[0].id == id then Some(rs[0]) else FirstWith(rs[1..], id)
  }

  function ReplaceFirst(rs: seq<Run>, run: Run): seq<Run> {
    if rs == [] then []
    else if rs[0].id == run.id then [run] + rs[1..]
    else [rs[0]] + ReplaceFirst(rs[1..], run)
  }

  function FindRun(runs: Runs, scope: string, id: string): Option<Run> {
    FirstWith(RunsOf(runs, scope), id)
  }

  function WithRun(runs: Runs, scope: string, run: Run): Runs {
    runs[scope := RunsOf(runs, scope) + [run]]
  }

  function WithUpdate(runs: Runs, scope: string, run: Run): Runs {
    if FindRun(runs, scope, run.id) == None then runs
    else runs[scope := ReplaceFirst(RunsOf(runs, scope), run)]
  }

  /** A new run is found under its own id unless an older one hides it; nothing else moves. */
  lemma FindAfterCreate(runs: Runs, scope: string, run: Run, sc: string, id: string)
    ensures FindRun(WithRun(runs, scope, run), sc, id)
         == if sc == scope && id == run.id && FindRun(runs, scope, id) == None then Some(run)
            else FindRun(runs, sc, id)
  {
    FirstOfAppend(RunsOf(runs, scope), run, id);
  }

  lemma {:induction false} FirstOfAppend(rs: seq<Run>, run: Run, id: string)
    ensures FirstWith(rs + [run], id)
         == if FirstWith(rs, id) != None then FirstWith(rs, id) else if run.id == id then Some(run) else None
  {
    if rs == [] {
      assert rs + [run] == [run];
    } else {
      assert (rs + [run])[1..] == rs[1..] + [run];
      FirstOfAppend(rs[1..], run, id);
    }
  }

  /** An update is seen by every later read of that run, and by no read of another. */
  lemma FindAfterUpdate(runs: Runs, scope: string, run: Run, sc: string, id: string)
    ensures FindRun(WithUpdate(runs, scope, run), sc, id)
         == if sc == scope && id == run.id && FindRun(runs, scope, id) != None then Some(run)
            else FindRun(runs, sc, id)
  {
    FirstOfReplace(RunsOf(runs, scope), run, id);
  }

  lemma {:induction false} FirstOfReplace(rs: seq<Run>, run: Run, id: string)
    ensures FirstWith(ReplaceFirst(rs, run), id)
         == if id == run.id && FirstWith(rs, id) != None then Some(run) else FirstWith(rs, id)
  {
    if rs != [] {
      FirstOfReplace(rs[1..], run, id);
    }
  }

  lemma {:induction false} FirstAt(rs: seq<Run>, run: Run, i: nat)
    requires i < |rs| && rs[i].id == run.id && forall j :: 0 <= j < i ==> rs[j].id != run.id
    ensures FirstWith(rs, run.id) == Some(rs[i]) && ReplaceFirst(rs, run) == rs[i := run]
  {
    if i > 0 {
      FirstAt(rs[1..], run, i - 1);
    }
  }

  lemma {:induction false} FirstNowhere(rs: seq<Run>, id: string)
    requires forall j :: 0 <= j < |rs| ==> rs[j].id != id
    ensures FirstWith(rs, id) == None
  {
    if rs != [] {
      FirstNowhere(rs[1..], id);
    }
  }

  lemma {:induction false} FoundHasId(rs: seq<Run>, id: string)
    ensures FirstWith(rs, id) != None ==> FirstWith(rs, id).value.id == id
  {
    if rs != [] {
      FoundHasId(rs[1..], id);
    }
  }

  function Reserved(requests: Requests, key: string, token: string, fingerprint: string)
    : (Requests, Result<Reservation>)
  {
    if key in requests then
      if requests[key].fingerprint != fingerprint then (requests, Err(RequestConflict))
      else (requests, Ok(requests[key].(created := false)))
    else
      var r := Reservation(token, fingerprint, "", "", InProgress, true);
      (requests[key := r], Ok(r))
  }

  function Bound(requests: Requests, key: string, runID: string): Result<Requests> {
    if key !in requests then Err(RequestNotFound)
    else Ok(requests[key := requests[key].(runID := runID)])
  }

  function Closed(requests: Requests, key: string, runID: string): Result<Requests> {
    if key !in requests then Err(RequestNotFound)
    else Ok(requests[key := requests[key].(status := Completed, submissionID := runID, runID := runID)])
  }

  function Lookup(requests: Requests, key: string): Result<Reservation> {
    if key !in requests then Err(RequestNotFound) else Ok(requests[key].(created := false))
  }

  /** The first reservation of a key makes a request in progress with nothing bound; a later one of the same
      fingerprint is told the request as it is, and one of another is refused. */
  lemma LookupAfterReserve(requests: Requests, key: string, token: string, fingerprint: string, other: string)
    ensures var (next, r) := Reserved(requests, key, token, fingerprint);
      && (r.Ok? <==> (key in requests ==> requests[key].fingerprint == fingerprint))
      && (r.Ok? ==> (r.value.created <==> key !in requests))
      && (r.Ok? ==> Lookup(next, key) == Ok(r.value.(created := false)))
      && (key !in requests ==>
            && r.value.token == token && r.value.fingerprint == fingerprint && r.value.status == InProgress
            && r.value.runID == "" && r.value.submissionID == "")
      && (key in requests || other != key ==> Lookup(next, other) == Lookup(requests, other))
  {
  }

  /** Binding names the run of a request that there is; completing it names its submission as well. Both keep
      the rest of it, and all other requests. */
  lemma LookupAfterBind(requests: Requests, key: string, runID: string, other: string)
    requires key in requests
    ensures var r, bound, closed := requests[key], Bound(requests, key, runID), Closed(requests, key, runID);
      && bound.Ok? && closed.Ok?
      && Lookup(bound.value, key)
           == Ok(Reservation(r.token, r.fingerprint, runID, r.submissionID, r.status, false))
      && Lookup(closed.value, key) == Ok(Reservation(r.token, r.fingerprint, runID, runID, Completed, false))
      && (other != key ==>
            Lookup(bound.value, other) == Lookup(requests, other) == Lookup(closed.value, other))
  {
  }

  class InMemoryStore {
    var runs: Runs
    var requests: Requests

    constructor ()
      ensures runs == map[] && requests == map[]
    {
      runs, requests := map[], map[];
    }

    method CreateRun(scope: string, run: Run)
      modifies this`runs
      ensures runs == WithRun(old(runs), scope, run)
    {
      var current := if scope in runs then runs[scope] else [];
      runs := runs[scope := current + [run]];
    }

    method UpdateRun(scope: string, run: Run) returns (found: bool)
      modifies this`runs
      ensures found <==> FindRun(old(runs), scope, run.id) != None
      ensures runs == WithUpdate(old(runs), scope, run)
    {
      var rs := if scope in runs then runs[scope] else [];
      for i := 0 to |rs|
        invariant forall j :: 0 <= j < i ==> rs[j].id != run.id
        invariant runs == old(runs)
      {
        if rs[i].id == run.id {
          FirstAt(rs, run, i);
          runs := runs[scope := rs[i := run]];
          return true;
        }
      }
      FirstNowhere(rs, run.id);
      return false;
    }

    method GetRun(scope: string, id: string) returns (r: Result<Run>)
      ensures r == match FindRun(runs, scope, id) { case None => Err(RunNotFound) case Some(run) => Ok(run) }
    {
      var rs := if scope in runs then runs[scope] else [];
      for i := 0 to |rs|
        invariant FirstWith(rs, id) == FirstWith(rs[i..], id)
      {
        if rs[i].id == id {
          return Ok(rs[i]);
        }
        assert rs[i..][1..] == rs[i + 1..];
      }
      return Err(RunNotFound);
    }

    method ReserveSubmissionRequest(key: string, token: string, fingerprint: string)
      returns (r: Result<Reservation>)
      modifies this`requests
      ensures (requests, r) == Reserved(old(requests), key, token, fingerprint)
    {
      if key in requests {
        var existing := requests[key];
        if existing.fingerprint != fingerprint {
          return Err(RequestConflict);
        }
        return Ok(existing.(created := false));
      }
      var reservation := Reservation(token, fingerprint, "", "", InProgress, true);
      requests := requests[key := reservation];
      return Ok(reservation);
    }

    method BindSubmissionRequestRun(key: string, runID: string) returns (ok: bool)
      modifies this`requests
      ensures ok <==> key in old(requests)
      ensures requests == if ok then Bound(old(requests), key, runID).value else old(requests)
    {
      if key !in requests {
        return false;
      }
      requests := requests[key := requests[key].(runID := runID)];
      return true;
    }

    method CompleteSubmissionRequest(key: string, runID: string) returns (ok: bool)
      modifies this`requests
      ensures ok <==> key in old(requests)
      ensures requests == if ok then Closed(old(requests), key, runID).value else old(requests)
    {
      if key !in requests {
        return false;
      }
      requests := requests[key := requests[key].(status := Completed, submissionID := runID, runID := runID)];
      return true;
    }

    method GetSubmissionRequest(key: string) returns (r: Result<Reservation>)
      ensures r == Lookup(requests, key)
    {
      if key !in requests {
        return Err(RequestNotFound);
      }
      return Ok(requests[key].(created := false));
    }
  }
}
