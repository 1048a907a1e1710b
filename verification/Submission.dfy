/** The Submit protocol: any number of concurrent calls over one execution store, in any number of
    scopes and with any client tokens. One action lets one call perform its next store operation, so
    an action list is an interleaving and the theorems hold for every interleaving. */
module Submission {
  import opened Options
  import opened Text
  import opened ExecutionStore
  import Keys

  /** What a call brings, after the input checks: `scope` is the workspace/user key, `token` the
      trimmed client token (empty when absent). */
  datatype Call = Call(scope: string, token: string, fingerprint: string, submitMode: bool, hasSession: bool)

  datatype Role = Undecided | NoToken | Owner | Joiner | Replayer | Stray

  /** Where a call stands: each stage names the store operation the call performs next. */
  datatype Stage =
    | Reserving
    | Awaiting
    | Waiting(runID: string)
    | JoinClosing(run: Run)
    | Fetching(runID: string)
    | Creating
    | Starting(run: Run)
    | Executing(run: Run)
    | Finishing(run: Run)
    | Binding(run: Run)
    | Closing(run: Run)
    | Recording(run: Run, next: nat)
    | Accepted(run: Run)
    | Rejected

  /** `launched` is the id of the run the call created, if it created one. */
  datatype Process = Process(call: Call, role: Role, stage: Stage, launched: Option<string>)

  /** How the runner ends: its own error, a supervisor result, or an exit code of the older protocol. */
  datatype Outcome = RunnerError | Judged(status: JudgeStatus, decodes: bool) | ExitCode(code: int, decodes: bool)

  /** The four memory events of one attempt, in recording order. */
  const EVIDENCE_EVENTS: nat := 4

  datatype Evidence = Evidence(caller: nat, runID: string, event: nat)

  /** The store, the calls, the evidence log, and two history variables: which call created each run
      id and which call first reserved each request key. */
  datatype State = State(
    runs: Runs, requests: Requests, calls: seq<Process>, evidence: seq<Evidence>,
    creators: map<string, nat>, owners: map<string, nat>)

  /** `freshID`, `outcome` and `saved` are what the id generator, the runner and the memory store
      would answer should the stage ask them. */
  datatype Action =
    | Arrive(call: Call)
    | Advance(caller: nat, freshID: string, outcome: Outcome, saved: bool)
    | Abort(caller: nat)

  function Init(): State {
    State(map[], map[], [], [], map[], map[])
  }

  function RequestKey(call: Call): string {
    Keys.Join([call.scope, call.token])
  }

  predicate IsTerminal(status: RunStatus) {
    status in {Passed, Failed, Timeout, OutOfMemory, Crashed, Error}
  }

  /** The record SubmitRun writes last. A supervisor status outside the protocol matches no case of the
      original's switch and leaves the status as it was. */
  function Finished(run: Run, outcome: Outcome): Run {
    match outcome
    case RunnerError => run.(status := Error, completed := true)
    case ExitCode(code, decodes) =>
      run.(status := if code == 0 then Passed else Failed, completed := true, gradable := decodes)
    case Judged(status, decodes) =>
      run.(completed := true, judge := Some(status), gradable := decodes, status :=
        match status
        case JudgePassed => Passed
        case JudgeFailed => Failed
        case JudgeTimeout => Timeout
        case JudgeOutOfMemory => OutOfMemory
        case JudgeCrashed => Crashed
        case Unknown(_) => run.status)
  }

  /** A graded assessment: a submit-mode call of a session whose run ended in a decodable verdict. */
  predicate Graded(call: Call, run: Run) {
    call.submitMode && call.hasSession && IsTerminal(run.status)
    && run.status in {Passed, Failed} && run.gradable
  }

  function Step(s: State, a: Action): State {
    match a
    case Arrive(call) => s.(calls := s.calls + [Process(call, Undecided, Reserving, None)])
    case Abort(p) =>
      if p < |s.calls| && !s.calls[p].stage.Accepted? then Move(s, p, Rejected) else s
    case Advance(p, freshID, outcome, saved) =>
      if p >= |s.calls| then s else
      match s.calls[p].stage
      case Reserving => ReserveStep(s, p)
      case Awaiting => AwaitStep(s, p)
      case Waiting(runID) => WaitStep(s, p, runID)
      case JoinClosing(run) => CloseStep(s, p, run, Accepted(run))
      case Fetching(runID) =>
        (match FindRun(s.runs, s.calls[p].call.scope, runID)
         case None => Move(s, p, Rejected)
         case Some(run) => Move(s, p, Accepted(run)))
      case Creating => CreateStep(s, p, freshID)
      case Starting(run) => UpdateStep(s, p, run.(status := Running), Executing(run.(status := Running)))
      case Executing(run) => Move(s, p, Finishing(Finished(run, outcome)))
      case Finishing(run) =>
        UpdateStep(s, p, run, if s.calls[p].call.token != "" then Binding(run) else AfterRun(s.calls[p].call, run))
      case Binding(run) => BindStep(s, p, run)
      case Closing(run) => CloseStep(s, p, run, AfterRun(s.calls[p].call, run))
      case Recording(run, next) => RecordStep(s, p, run, next, saved)
      case Accepted(_) => s
      case Rejected => s
  }

  function Move(s: State, p: nat, stage: Stage): State
    requires p < |s.calls|
  {
    s.(calls := s.calls[p := s.calls[p].(stage := stage)])
  }

  function Decide(s: State, p: nat, role: Role, stage: Stage): State
    requires p < |s.calls|
  {
    s.(calls := s.calls[p := s.calls[p].(role := role, stage := stage)])
  }

  function AfterRun(call: Call, run: Run): Stage {
    if Graded(call, run) then Recording(run, 0) else Accepted(run)
  }

  function ReserveStep(s: State, p: nat): State
    requires p < |s.calls|
  {
    var call := s.calls[p].call;
    if call.token == "" then Decide(s, p, NoToken, Creating) else
    var key := RequestKey(call);
    var (requests, result) := Reserved(s.requests, key, call.token, call.fingerprint);
    match result
    case Err(_) => Move(s, p, Rejected)
    case Ok(reservation) =>
      var s' := s.(requests := requests);
      if reservation.created then Decide(s'.(owners := s.owners[key := p]), p, Owner, Creating)
      else if reservation.status == Completed && reservation.submissionID != "" then
        Decide(s', p, Replayer, Fetching(reservation.submissionID))
      else if reservation.status == InProgress then
        Decide(s', p, Joiner, if Blank(reservation.runID) then Awaiting else Waiting(reservation.runID))
      else Decide(s', p, Stray, Creating)
  }

  function AwaitStep(s: State, p: nat): State
    requires p < |s.calls|
  {
    match Lookup(s.requests, RequestKey(s.calls[p].call))
    case Err(_) => Move(s, p, Rejected)
    case Ok(r) =>
      if !Blank(r.runID) || (r.status == Completed && r.submissionID != "") then Move(s, p, Waiting(r.runID)) else s
  }

  function WaitStep(s: State, p: nat, runID: string): State
    requires p < |s.calls|
  {
    if Blank(runID) then Move(s, p, Rejected) else
    match FindRun(s.runs, s.calls[p].call.scope, runID)
    case None => s
    case Some(run) => if IsTerminal(run.status) then Move(s, p, JoinClosing(run)) else s
  }

  function NewRun(id: string): Run {
    Run(id, Queued, None, false, false)
  }

  /** A generated run id is non-blank and was never used before; any other proposal is ignored. */
  function CreateStep(s: State, p: nat, freshID: string): State
    requires p < |s.calls|
  {
    if Blank(freshID) || freshID in s.creators then s else
    var run := NewRun(freshID);
    s.(runs := WithRun(s.runs, s.calls[p].call.scope, run),
       creators := s.creators[freshID := p],
       calls := s.calls[p := s.calls[p].(stage := Starting(run), launched := Some(freshID))])
  }

  function UpdateStep(s: State, p: nat, run: Run, next: Stage): State
    requires p < |s.calls|
  {
    var scope := s.calls[p].call.scope;
    if FindRun(s.runs, scope, run.id) == None then Move(s, p, Rejected)
    else Move(s.(runs := WithUpdate(s.runs, scope, run)), p, next)
  }

  function BindStep(s: State, p: nat, run: Run): State
    requires p < |s.calls|
  {
    match Bound(s.requests, RequestKey(s.calls[p].call), run.id)
    case Err(_) => Move(s, p, Rejected)
    case Ok(requests) => Move(s.(requests := requests), p, Closing(run))
  }

  function CloseStep(s: State, p: nat, run: Run, next: Stage): State
    requires p < |s.calls|
  {
    match Closed(s.requests, RequestKey(s.calls[p].call), run.id)
    case Err(_) => Move(s, p, Rejected)
    case Ok(requests) => Move(s.(requests := requests), p, next)
  }

  function RecordStep(s: State, p: nat, run: Run, next: nat, saved: bool): State
    requires p < |s.calls|
  {
    if next >= EVIDENCE_EVENTS then Move(s, p, Accepted(run)) else
    Move(if saved then s.(evidence := s.evidence + [Evidence(p, run.id, next)]) else s, p, Recording(run, next + 1))
  }

  function Exec(s: State, actions: seq<Action>): State
    decreases |actions|
  {
    if actions == [] then s else Exec(Step(s, actions[0]), actions[1..])
  }

  // ---- the inductive invariant ----

  /** A request is owned by exactly one call, has that call's fingerprint, names no run but the one its
      owner launched and finished, and is completed only together with that run's id. */
  ghost predicate RequestOK(s: State, key: string)
    requires key in s.requests
  {
    && key in s.owners && s.owners[key] < |s.calls|
    && var r, owner := s.requests[key], s.calls[s.owners[key]];
    && owner.role == Owner && RequestKey(owner.call) == key && owner.call.token != ""
    && r.fingerprint == owner.call.fingerprint
    && (r.status == Completed <==> r.submissionID != "")
    && (r.submissionID != "" ==> r.submissionID == r.runID)
    && (r.runID != "" ==> owner.launched == Some(r.runID) && !Blank(r.runID) && Settled(s, owner.call.scope, r.runID))
  }

  ghost predicate Settled(s: State, scope: string, id: string) {
    var run := FindRun(s.runs, scope, id);
    run.Some? && run.value.completed
  }

  ghost predicate Unbound(s: State, c: Process) {
    c.role == Owner ==> RequestKey(c.call) in s.requests && s.requests[RequestKey(c.call)].runID == ""
  }

  ghost predicate BoundTo(s: State, c: Process, id: string) {
    var key := RequestKey(c.call);
    key in s.requests && s.requests[key].runID == id && id != ""
  }

  ghost predicate Held(s: State, c: Process, run: Run) {
    FindRun(s.runs, c.call.scope, run.id) == Some(run)
  }

  ghost predicate RoleOK(s: State, p: nat)
    requires p < |s.calls|
  {
    var c := s.calls[p];
    && (c.role == NoToken ==> c.call.token == "")
    && (c.role in {Owner, Joiner, Replayer} ==> c.call.token != "")
    && (c.role == Owner ==> RequestKey(c.call) in s.owners && s.owners[RequestKey(c.call)] == p)
    && (c.role in {Owner, Joiner, Replayer} ==>
          RequestKey(c.call) in s.requests && s.requests[RequestKey(c.call)].fingerprint == c.call.fingerprint)
    && (c.launched.Some? ==>
          c.role in {Owner, NoToken} && c.launched.value in s.creators && s.creators[c.launched.value] == p)
    && c.role != Stray
  }

  ghost predicate StageOK(s: State, p: nat)
    requires p < |s.calls|
  {
    var c := s.calls[p];
    match c.stage
    case Reserving => c.role == Undecided && c.launched == None
    case Awaiting => c.role == Joiner
    case Waiting(id) => c.role == Joiner && (Blank(id) || BoundTo(s, c, id))
    case JoinClosing(run) =>
      c.role == Joiner && BoundTo(s, c, run.id) && Held(s, c, run) && run.completed && IsTerminal(run.status)
    case Fetching(id) => c.role == Replayer && BoundTo(s, c, id) && s.requests[RequestKey(c.call)].status == Completed
    case Creating => c.role in {Owner, NoToken} && c.launched == None && Unbound(s, c)
    case Starting(run) => Launching(s, c, run) && run.judge == None
    case Executing(run) => Launching(s, c, run) && run.status == Running && run.judge == None
    case Finishing(run) => Launching(s, c, run.(completed := false)) && run.completed && StatusOK(run)
    case Binding(run) => c.role == Owner && c.launched == Some(run.id) && Held(s, c, run) && run.completed
    case Closing(run) =>
      c.role == Owner && c.launched == Some(run.id) && Held(s, c, run) && run.completed && BoundTo(s, c, run.id)
    case Recording(run, next) =>
      c.role in {Owner, NoToken} && c.launched == Some(run.id) && AcceptedOK(s, c, run) && next <= EVIDENCE_EVENTS
    case Accepted(run) => c.role != Undecided && AcceptedOK(s, c, run)
    case Rejected => true
  }

  /** A call whose run is stored but not yet finished, and bound to no request. */
  ghost predicate Launching(s: State, c: Process, run: Run) {
    && c.role in {Owner, NoToken} && c.launched == Some(run.id) && Unbound(s, c) && !run.completed
    && var stored := FindRun(s.runs, c.call.scope, run.id);
    stored.Some? && !stored.value.completed && stored.value.judge == None
  }

  ghost predicate AcceptedOK(s: State, c: Process, run: Run) {
    && Held(s, c, run) && run.completed
    && (c.role == NoToken ==> c.launched == Some(run.id))
    && (c.role != NoToken ==> BoundTo(s, c, run.id) && s.requests[RequestKey(c.call)].status == Completed)
    && (c.role == Joiner ==> IsTerminal(run.status))
  }

  /** A finished run is terminal unless the supervisor answered outside the protocol. */
  ghost predicate StatusOK(run: Run) {
    run.completed ==> (IsTerminal(run.status) <==> !(run.judge.Some? && run.judge.value.Unknown?))
  }

  ghost predicate RunsOK(s: State) {
    forall scope, id :: FindRun(s.runs, scope, id).Some? ==>
      var run := FindRun(s.runs, scope, id).value;
      && run.id == id && StatusOK(run)
      && id in s.creators && s.creators[id] < |s.calls| && s.calls[s.creators[id]].call.scope == scope
  }

  ghost predicate CreatorsOK(s: State) {
    forall id :: id in s.creators ==>
      s.creators[id] < |s.calls| && s.calls[s.creators[id]].launched == Some(id) && !Blank(id)
  }

  /** How many evidence events a call may have recorded so far. */
  function Progress(c: Process): nat {
    match c.stage
    case Recording(_, next) => next
    case Accepted(_) => EVIDENCE_EVENTS
    case Rejected => EVIDENCE_EVENTS
    case _ => 0
  }

  ghost predicate EvidenceOK(s: State) {
    && (forall i :: 0 <= i < |s.evidence| ==>
          var e := s.evidence[i];
          && e.caller < |s.calls| && s.calls[e.caller].launched == Some(e.runID)
          && e.event < EVIDENCE_EVENTS && e.event < Progress(s.calls[e.caller]))
    && (forall i, j :: 0 <= i < j < |s.evidence| && s.evidence[i].caller == s.evidence[j].caller ==>
          s.evidence[i].event < s.evidence[j].event)
  }

  ghost predicate CallsOK(s: State) {
    forall p :: 0 <= p < |s.calls| ==> RoleOK(s, p) && StageOK(s, p)
  }

  ghost predicate RequestsOK(s: State) {
    && s.requests.Keys == s.owners.Keys
    && forall key :: key in s.requests ==> RequestOK(s, key)
  }

  ghost predicate Inv(s: State) {
    RequestsOK(s) && CallsOK(s) && RunsOK(s) && CreatorsOK(s) && EvidenceOK(s)
  }

  // ---- every step keeps it ----

  /** What a step may change for a call that does not move: requests only gain information, finished
      runs stay, and the call's own unfinished run and unbound request stay. */
  ghost predicate Frames(s: State, s': State, q: nat)
    requires q < |s.calls| <= |s'.calls|
  {
    && s'.calls[q] == s.calls[q]
    && RequestsGrow(s, s')
    && RunsGrow(s, s')
    && (Unbound(s, s.calls[q]) ==> Unbound(s', s.calls[q]))
    && (s.calls[q].launched.Some? ==>
          var scope, id := s.calls[q].call.scope, s.calls[q].launched.value;
          FindRun(s'.runs, scope, id) == FindRun(s.runs, scope, id))
  }

  ghost predicate RequestsGrow(s: State, s': State) {
    && (forall key :: key in s.requests ==>
          && key in s'.requests
          && s'.requests[key].fingerprint == s.requests[key].fingerprint
          && (s.requests[key].runID != "" ==> s'.requests[key].runID == s.requests[key].runID)
          && (s.requests[key].status == Completed ==> s'.requests[key].status == Completed))
    && (forall key :: key in s.owners ==> key in s'.owners && s'.owners[key] == s.owners[key])
    && (forall id :: id in s.creators ==> id in s'.creators && s'.creators[id] == s.creators[id])
  }

  ghost predicate RunsGrow(s: State, s': State) {
    forall scope, id :: Settled(s, scope, id) ==> FindRun(s'.runs, scope, id) == FindRun(s.runs, scope, id)
  }

  lemma FrameCall(s: State, s': State, q: nat)
    requires q < |s.calls| <= |s'.calls| && Frames(s, s', q)
    requires RoleOK(s, q) && StageOK(s, q)
    ensures RoleOK(s', q) && StageOK(s', q)
  {
    var c := s.calls[q];
    match c.stage
    case JoinClosing(run) => assert Settled(s, c.call.scope, run.id);
    case Binding(run) => assert Settled(s, c.call.scope, run.id);
    case Closing(run) => assert Settled(s, c.call.scope, run.id);
    case Recording(run, _) => assert Settled(s, c.call.scope, run.id);
    case Accepted(run) => assert Settled(s, c.call.scope, run.id);
    case _ =>
  }

  /** A request keeps its invariant when it and its owner's identity are unchanged. */
  lemma FrameRequest(s: State, s': State, key: string)
    requires key in s.requests && RequestOK(s, key)
    requires RunsGrow(s, s') && |s.calls| <= |s'.calls|
    requires key in s'.requests && s'.requests[key] == s.requests[key]
    requires key in s'.owners && s'.owners[key] == s.owners[key]
    requires SameIdentity(s.calls[s.owners[key]], s'.calls[s.owners[key]])
    ensures RequestOK(s', key)
  {
  }

  ghost predicate SameIdentity(c: Process, c': Process) {
    && c'.call == c.call
    && (c.role != Undecided ==> c'.role == c.role)
    && (c.launched != None ==> c'.launched == c.launched)
  }

  /** Only call `p` moves, and it keeps its identity. */
  ghost predicate OnlyMoves(s: State, s': State, p: nat) {
    && p < |s.calls| == |s'.calls|
    && (forall q :: 0 <= q < |s.calls| && q != p ==> s'.calls[q] == s.calls[q])
    && SameIdentity(s.calls[p], s'.calls[p])
  }

  lemma FrameEvidence(s: State, s': State, p: nat)
    requires EvidenceOK(s) && s'.evidence == s.evidence
    requires OnlyMoves(s, s', p)
    requires Progress(s'.calls[p]) >= Progress(s.calls[p])
    ensures EvidenceOK(s')
  {
  }

  lemma FrameCalls(s: State, s': State, p: nat)
    requires CallsOK(s) && OnlyMoves(s, s', p)
    requires forall q :: 0 <= q < |s.calls| && q != p ==> Frames(s, s', q)
    requires RoleOK(s', p) && StageOK(s', p)
    ensures CallsOK(s')
  {
    forall q | 0 <= q < |s'.calls| ensures RoleOK(s', q) && StageOK(s', q) {
      if q != p {
        assert RoleOK(s, q) && StageOK(s, q);
        FrameCall(s, s', q);
      }
    }
  }

  lemma FrameRequests(s: State, s': State, p: nat)
    requires RequestsOK(s) && OnlyMoves(s, s', p) && RunsGrow(s, s')
    requires s'.requests == s.requests && s'.owners == s.owners
    ensures RequestsOK(s')
  {
    forall key | key in s'.requests ensures RequestOK(s', key) {
      assert RequestOK(s, key);
      FrameRequest(s, s', key);
    }
  }

  lemma FrameRuns(s: State, s': State, p: nat)
    requires RunsOK(s) && CreatorsOK(s) && OnlyMoves(s, s', p)
    requires s'.runs == s.runs && s'.creators == s.creators
    ensures RunsOK(s') && CreatorsOK(s')
  {
    assert forall scope, id :: FindRun(s'.runs, scope, id) == FindRun(s.runs, scope, id);
  }

  /** A step that moves one call without touching the store. */
  lemma MoveInv(s: State, p: nat, stage: Stage)
    requires Inv(s) && p < |s.calls|
    requires StageOK(Move(s, p, stage), p)
    requires Progress(s.calls[p].(stage := stage)) >= Progress(s.calls[p])
    ensures Inv(Move(s, p, stage))
  {
    var s' := Move(s, p, stage);
    StillInv(s, s', p) by {
      assert RoleOK(s, p);
    }
  }

  /** The store and the histories as before, one call moved. */
  lemma StillInv(s: State, s': State, p: nat)
    requires Inv(s) && OnlyMoves(s, s', p)
    requires s' == s.(calls := s'.calls)
    requires RoleOK(s', p) && StageOK(s', p)
    requires Progress(s'.calls[p]) >= Progress(s.calls[p])
    ensures Inv(s')
  {
    FrameCalls(s, s', p);
    FrameRequests(s, s', p);
    FrameRuns(s, s', p);
    FrameEvidence(s, s', p);
  }

  lemma ArriveInv(s: State, call: Call)
    requires Inv(s)
    ensures Inv(Step(s, Arrive(call)))
  {
    var s' := Step(s, Arrive(call));
    forall q | 0 <= q < |s'.calls| ensures RoleOK(s', q) && StageOK(s', q) {
      if q < |s.calls| { FrameCall(s, s', q); }
    }
    forall key | key in s'.requests ensures RequestOK(s', key) {
      FrameRequest(s, s', key);
    }
  }

  lemma ReserveInv(s: State, p: nat)
    requires Inv(s) && p < |s.calls| && s.calls[p].stage == Reserving
    ensures Inv(ReserveStep(s, p))
  {
    var s', call, key := ReserveStep(s, p), s.calls[p].call, RequestKey(s.calls[p].call);
    assert RoleOK(s, p) && StageOK(s, p);
    if call.token != "" && key !in s.requests {
      OwnInv(s, p);
    } else {
      JoinStep(s, p);
      StillInv(s, s', p);
    }
  }

  /** A call without a token, or one whose key is reserved already, only moves. */
  lemma JoinStep(s: State, p: nat)
    requires RequestsOK(s) && p < |s.calls| && s.calls[p].stage == Reserving && RoleOK(s, p) && StageOK(s, p)
    requires s.calls[p].call.token == "" || RequestKey(s.calls[p].call) in s.requests
    ensures var s' := ReserveStep(s, p);
      && OnlyMoves(s, s', p) && s' == s.(calls := s'.calls) && RoleOK(s', p) && StageOK(s', p)
      && Progress(s'.calls[p]) >= Progress(s.calls[p])
  {
    if s.calls[p].call.token != "" {
      assert RequestOK(s, RequestKey(s.calls[p].call));
    }
    assert s.(requests := s.requests) == s;
  }

  /** The first reservation of a key makes the call its owner. */
  lemma OwnInv(s: State, p: nat)
    requires Inv(s) && p < |s.calls| && s.calls[p].stage == Reserving
    requires s.calls[p].call.token != "" && RequestKey(s.calls[p].call) !in s.requests
    ensures Inv(ReserveStep(s, p))
  {
    var s' := ReserveStep(s, p);
    assert StageOK(s, p) && RoleOK(s, p);
    OwnFrames(s, p);
    FrameCalls(s, s', p);
    OwnRequests(s, p);
    FrameRuns(s, s', p);
    FrameEvidence(s, s', p);
  }

  lemma OwnFrames(s: State, p: nat)
    requires RequestsOK(s) && p < |s.calls| && s.calls[p].stage == Reserving
    requires s.calls[p].call.token != "" && RequestKey(s.calls[p].call) !in s.requests
    requires StageOK(s, p) && RoleOK(s, p)
    ensures var s' := ReserveStep(s, p);
      && OnlyMoves(s, s', p) && RoleOK(s', p) && StageOK(s', p)
      && forall q :: 0 <= q < |s.calls| && q != p ==> Frames(s, s', q)
  {
  }

  lemma OwnRequests(s: State, p: nat)
    requires RequestsOK(s) && p < |s.calls| && s.calls[p].stage == Reserving && StageOK(s, p)
    requires s.calls[p].call.token != "" && RequestKey(s.calls[p].call) !in s.requests
    ensures RequestsOK(ReserveStep(s, p))
  {
    var s' := ReserveStep(s, p);
    forall key | key in s'.requests ensures RequestOK(s', key) {
      if key in s.requests {
        assert RequestOK(s, key);
        FrameRequest(s, s', key);
      }
    }
  }

  lemma CreateInv(s: State, p: nat, freshID: string)
    requires Inv(s) && p < |s.calls| && s.calls[p].stage == Creating
    requires !Blank(freshID) && freshID !in s.creators
    ensures Inv(CreateStep(s, p, freshID))
  {
    var s' := CreateStep(s, p, freshID);
    assert RoleOK(s, p) && StageOK(s, p);
    CreateFinds(s, p, freshID);
    CreateFrames(s, p, freshID);
    FrameCalls(s, s', p);
    FrameRequests(s, s', p);
    CreateRuns(s, p, freshID);
    FrameEvidence(s, s', p);
  }

  ghost predicate FindsOnly(s: State, s': State, scope: string, run: Run) {
    forall sc, id :: FindRun(s'.runs, sc, id)
      == if sc == scope && id == run.id then Some(run) else FindRun(s.runs, sc, id)
  }

  lemma CreateFinds(s: State, p: nat, freshID: string)
    requires RunsOK(s) && p < |s.calls| && !Blank(freshID) && freshID !in s.creators
    ensures FindRun(s.runs, s.calls[p].call.scope, freshID) == None
    ensures FindsOnly(s, CreateStep(s, p, freshID), s.calls[p].call.scope, NewRun(freshID))
  {
    var s', scope := CreateStep(s, p, freshID), s.calls[p].call.scope;
    forall sc, id
      ensures FindRun(s'.runs, sc, id)
           == if sc == scope && id == freshID then Some(NewRun(freshID)) else FindRun(s.runs, sc, id)
    {
      FindAfterCreate(s.runs, scope, NewRun(freshID), sc, id);
    }
  }

  lemma CreateFrames(s: State, p: nat, freshID: string)
    requires CallsOK(s) && p < |s.calls| && s.calls[p].stage == Creating
    requires StageOK(s, p) && RoleOK(s, p)
    requires !Blank(freshID) && freshID !in s.creators
    requires FindRun(s.runs, s.calls[p].call.scope, freshID) == None
    requires FindsOnly(s, CreateStep(s, p, freshID), s.calls[p].call.scope, NewRun(freshID))
    ensures var s' := CreateStep(s, p, freshID);
      && OnlyMoves(s, s', p) && RoleOK(s', p) && StageOK(s', p) && RunsGrow(s, s')
      && forall q :: 0 <= q < |s.calls| && q != p ==> Frames(s, s', q)
  {
    var s' := CreateStep(s, p, freshID);
    forall q | 0 <= q < |s.calls| && q != p ensures Frames(s, s', q) {
      assert RoleOK(s, q);
    }
  }

  lemma CreateRuns(s: State, p: nat, freshID: string)
    requires RunsOK(s) && CreatorsOK(s) && p < |s.calls| && s.calls[p].launched == None
    requires !Blank(freshID) && freshID !in s.creators
    requires FindsOnly(s, CreateStep(s, p, freshID), s.calls[p].call.scope, NewRun(freshID))
    ensures RunsOK(CreateStep(s, p, freshID)) && CreatorsOK(CreateStep(s, p, freshID))
  {
  }

  /** The launching call writes its own unfinished run. */
  lemma UpdateInv(s: State, p: nat, run: Run, next: Stage)
    requires Inv(s) && p < |s.calls| && Launching(s, s.calls[p], run.(completed := false)) && StatusOK(run)
    requires Progress(s.calls[p]) == 0
    requires FindsOnly(s, UpdateStep(s, p, run, next), s.calls[p].call.scope, run) ==>
      StageOK(UpdateStep(s, p, run, next), p)
    ensures Inv(UpdateStep(s, p, run, next))
  {
    var s' := UpdateStep(s, p, run, next);
    assert RoleOK(s, p);
    UpdateFinds(s, p, run, next);
    UpdateFrames(s, p, run, next);
    FrameCalls(s, s', p);
    FrameRequests(s, s', p);
    UpdateRuns(s, p, run, next);
    FrameEvidence(s, s', p);
  }

  lemma UpdateFinds(s: State, p: nat, run: Run, next: Stage)
    requires p < |s.calls| && FindRun(s.runs, s.calls[p].call.scope, run.id) != None
    ensures FindsOnly(s, UpdateStep(s, p, run, next), s.calls[p].call.scope, run)
  {
    var s', scope := UpdateStep(s, p, run, next), s.calls[p].call.scope;
    forall sc, id
      ensures FindRun(s'.runs, sc, id) == if sc == scope && id == run.id then Some(run) else FindRun(s.runs, sc, id)
    {
      FindAfterUpdate(s.runs, scope, run, sc, id);
    }
  }

  lemma UpdateFrames(s: State, p: nat, run: Run, next: Stage)
    requires CallsOK(s) && p < |s.calls| && Launching(s, s.calls[p], run.(completed := false))
    requires FindsOnly(s, UpdateStep(s, p, run, next), s.calls[p].call.scope, run)
    ensures var s' := UpdateStep(s, p, run, next);
      && OnlyMoves(s, s', p) && RoleOK(s', p) && RunsGrow(s, s')
      && forall q :: 0 <= q < |s.calls| && q != p ==> Frames(s, s', q)
  {
    var s' := UpdateStep(s, p, run, next);
    assert RoleOK(s, p);
    forall q | 0 <= q < |s.calls| && q != p ensures Frames(s, s', q) {
      assert RoleOK(s, q);
    }
  }

  lemma UpdateRuns(s: State, p: nat, run: Run, next: Stage)
    requires RunsOK(s) && CreatorsOK(s) && p < |s.calls| && StatusOK(run)
    requires FindRun(s.runs, s.calls[p].call.scope, run.id) != None
    requires FindsOnly(s, UpdateStep(s, p, run, next), s.calls[p].call.scope, run)
    ensures RunsOK(UpdateStep(s, p, run, next)) && CreatorsOK(UpdateStep(s, p, run, next))
  {
  }

  /** Binding or closing: the call's request receives the finished run's id. */
  ghost predicate Writes(s: State, s': State, p: nat, run: Run)
  {
    && p < |s.calls| == |s'.calls|
    && var c, key := s.calls[p], RequestKey(s.calls[p].call);
    && c.role in {Owner, Joiner} && Held(s, c, run) && run.completed
    && (c.role == Owner ==> c.launched == Some(run.id))
    && (c.role == Joiner ==> BoundTo(s, c, run.id))
    && key in s.requests && key in s'.requests
    && var old_, new_ := s.requests[key], s'.requests[key];
    && new_.fingerprint == old_.fingerprint && new_.runID == run.id
    && (new_.status == Completed <==> new_.submissionID != "") && new_.submissionID in {"", run.id}
    && (old_.status == Completed ==> new_.status == Completed)
    && s' == s.(requests := s.requests[key := new_], calls := s.calls[p := s'.calls[p]])
    && SameIdentity(c, s'.calls[p]) && s'.calls[p].role == c.role && s'.calls[p].launched == c.launched
  }

  lemma WriteInv(s: State, s': State, p: nat, run: Run)
    requires Inv(s) && Writes(s, s', p, run)
    requires Progress(s'.calls[p]) >= Progress(s.calls[p])
    requires run.id != "" ==> StageOK(s', p)
    ensures Inv(s')
  {
    assert RoleOK(s, p) && RequestOK(s, RequestKey(s.calls[p].call));
    WriteFrames(s, s', p, run);
    FrameCalls(s, s', p);
    WriteRequests(s, s', p, run);
    FrameRuns(s, s', p);
    FrameEvidence(s, s', p);
  }

  lemma WriteFrames(s: State, s': State, p: nat, run: Run)
    requires CallsOK(s) && CreatorsOK(s) && Writes(s, s', p, run)
    requires RequestOK(s, RequestKey(s.calls[p].call))
    ensures run.id != "" && OnlyMoves(s, s', p) && RoleOK(s', p)
    ensures forall q :: 0 <= q < |s.calls| && q != p ==> Frames(s, s', q)
  {
    var key := RequestKey(s.calls[p].call);
    assert RoleOK(s, p) && s.requests[key].runID in {"", run.id};
    forall q | 0 <= q < |s.calls| && q != p ensures Frames(s, s', q) {
      assert RoleOK(s, q);
    }
  }

  lemma WriteRequests(s: State, s': State, p: nat, run: Run)
    requires RequestsOK(s) && CallsOK(s) && CreatorsOK(s) && Writes(s, s', p, run)
    ensures RequestsOK(s')
  {
    var mine := RequestKey(s.calls[p].call);
    WriteMine(s, s', p, run);
    forall key | key in s'.requests ensures RequestOK(s', key) {
      if key != mine {
        assert RequestOK(s, key);
        FrameRequest(s, s', key);
      }
    }
  }

  lemma WriteMine(s: State, s': State, p: nat, run: Run)
    requires RequestsOK(s) && CallsOK(s) && CreatorsOK(s) && Writes(s, s', p, run)
    ensures RequestOK(s', RequestKey(s.calls[p].call))
  {
    assert RoleOK(s, p) && RequestOK(s, RequestKey(s.calls[p].call));
    assert !Blank(run.id);
  }

  /** Recording appends at most the next event of the call's own attempt. */
  lemma RecordInv(s: State, p: nat, run: Run, next: nat, saved: bool)
    requires Inv(s) && p < |s.calls| && s.calls[p].stage == Recording(run, next)
    ensures Inv(RecordStep(s, p, run, next, saved))
  {
    assert RoleOK(s, p) && StageOK(s, p);
    if next >= EVIDENCE_EVENTS {
      MoveInv(s, p, Accepted(run));
    } else {
      MoveInv(s, p, Recording(run, next + 1));
      if saved {
        RecordEvidence(s, p, run, next);
        SameButEvidence(Move(s, p, Recording(run, next + 1)), RecordStep(s, p, run, next, saved));
      }
    }
  }

  lemma RecordEvidence(s: State, p: nat, run: Run, next: nat)
    requires EvidenceOK(s) && p < |s.calls| && s.calls[p].stage == Recording(run, next)
    requires s.calls[p].launched == Some(run.id) && next < EVIDENCE_EVENTS
    ensures EvidenceOK(RecordStep(s, p, run, next, true))
  {
  }

  lemma SameButEvidence(s: State, s': State)
    requires RequestsOK(s) && CallsOK(s) && RunsOK(s) && CreatorsOK(s)
    requires s' == s.(evidence := s'.evidence)
    ensures RequestsOK(s') && CallsOK(s') && RunsOK(s') && CreatorsOK(s')
  {
    forall key | key in s'.requests ensures RequestOK(s', key) {
      FrameRequest(s, s', key);
    }
    forall q | 0 <= q < |s'.calls| ensures RoleOK(s', q) && StageOK(s', q) {
      FrameCall(s, s', q);
    }
  }

  lemma CloseInv(s: State, p: nat, run: Run)
    requires Inv(s) && p < |s.calls|
    requires s.calls[p].stage in {Closing(run), JoinClosing(run)}
    ensures Inv(Step(s, Advance(p, "", RunnerError, false)))
  {
    assert RoleOK(s, p) && StageOK(s, p);
    var s' := Step(s, Advance(p, "", RunnerError, false));
    WriteInv(s, s', p, run);
  }

  lemma BindInv(s: State, p: nat, run: Run)
    requires Inv(s) && p < |s.calls| && s.calls[p].stage == Binding(run)
    ensures Inv(BindStep(s, p, run))
  {
    var key := RequestKey(s.calls[p].call);
    assert RoleOK(s, p) && StageOK(s, p) && RequestOK(s, key);
    WriteInv(s, BindStep(s, p, run), p, run);
  }

  lemma FinishInv(s: State, p: nat, run: Run, next: Stage)
    requires Inv(s) && p < |s.calls| && s.calls[p].stage == Finishing(run)
    requires next == if s.calls[p].call.token != "" then Binding(run) else AfterRun(s.calls[p].call, run)
    ensures Inv(UpdateStep(s, p, run, next))
  {
    assert RoleOK(s, p) && StageOK(s, p);
    UpdateInv(s, p, run, next);
  }

  lemma StepInv(s: State, a: Action)
    requires Inv(s)
    ensures Inv(Step(s, a))
  {
    match a
    case Arrive(call) => ArriveInv(s, call);
    case Abort(p) =>
      if p < |s.calls| && !s.calls[p].stage.Accepted? {
        assert StageOK(s, p);
        MoveInv(s, p, Rejected);
      }
    case Advance(p, freshID, outcome, saved) =>
      if p < |s.calls| { AdvanceInv(s, p, freshID, outcome, saved); }
  }

  lemma AdvanceInv(s: State, p: nat, freshID: string, outcome: Outcome, saved: bool)
    requires Inv(s) && p < |s.calls|
    ensures Inv(Step(s, Advance(p, freshID, outcome, saved)))
  {
    match s.calls[p].stage
    case Reserving => ReserveInv(s, p);
    case Awaiting => AwaitInv(s, p);
    case Waiting(id) => WaitInv(s, p, id);
    case JoinClosing(run) => CloseInv(s, p, run);
    case Fetching(id) => FetchInv(s, p, id, freshID, outcome, saved);
    case Creating => if !Blank(freshID) && freshID !in s.creators { CreateInv(s, p, freshID); }
    case Starting(run) => StartInv(s, p, run);
    case Executing(run) => ExecuteInv(s, p, run, outcome);
    case Finishing(run) =>
      FinishInv(s, p, run, if s.calls[p].call.token != "" then Binding(run) else AfterRun(s.calls[p].call, run));
    case Binding(run) => BindInv(s, p, run);
    case Closing(run) => CloseInv(s, p, run);
    case Recording(run, next) => RecordInv(s, p, run, next, saved);
    case Accepted(_) =>
    case Rejected =>
  }

  lemma AwaitInv(s: State, p: nat)
    requires Inv(s) && p < |s.calls| && s.calls[p].stage == Awaiting
    ensures Inv(AwaitStep(s, p))
  {
    var s', key := AwaitStep(s, p), RequestKey(s.calls[p].call);
    assert RoleOK(s, p) && StageOK(s, p) && RequestOK(s, key);
    if s' != s { MoveInv(s, p, s'.calls[p].stage); }
  }

  lemma WaitInv(s: State, p: nat, id: string)
    requires Inv(s) && p < |s.calls| && s.calls[p].stage == Waiting(id)
    ensures Inv(WaitStep(s, p, id))
  {
    var s' := WaitStep(s, p, id);
    assert RoleOK(s, p) && StageOK(s, p);
    if !Blank(id) { assert RequestOK(s, RequestKey(s.calls[p].call)); }
    if s' != s { MoveInv(s, p, s'.calls[p].stage); }
  }

  lemma StartInv(s: State, p: nat, run: Run)
    requires Inv(s) && p < |s.calls| && s.calls[p].stage == Starting(run)
    ensures Inv(UpdateStep(s, p, run.(status := Running), Executing(run.(status := Running))))
  {
    assert StageOK(s, p);
    UpdateInv(s, p, run.(status := Running), Executing(run.(status := Running)));
  }

  lemma ExecuteInv(s: State, p: nat, run: Run, outcome: Outcome)
    requires Inv(s) && p < |s.calls| && s.calls[p].stage == Executing(run)
    ensures Inv(Move(s, p, Finishing(Finished(run, outcome))))
  {
    ExecuteStage(s, p, run, outcome);
    MoveInv(s, p, Finishing(Finished(run, outcome)));
  }

  lemma ExecuteStage(s: State, p: nat, run: Run, outcome: Outcome)
    requires CallsOK(s) && p < |s.calls| && s.calls[p].stage == Executing(run)
    ensures StageOK(Move(s, p, Finishing(Finished(run, outcome))), p)
  {
    assert StageOK(s, p);
  }

  lemma FetchInv(s: State, p: nat, id: string, freshID: string, outcome: Outcome, saved: bool)
    requires Inv(s) && p < |s.calls| && s.calls[p].stage == Fetching(id)
    ensures Inv(Step(s, Advance(p, freshID, outcome, saved)))
  {
    FetchStage(s, p, id, freshID, outcome, saved);
    MoveInv(s, p, Step(s, Advance(p, freshID, outcome, saved)).calls[p].stage);
  }

  lemma FetchStage(s: State, p: nat, id: string, freshID: string, outcome: Outcome, saved: bool)
    requires RequestsOK(s) && CallsOK(s) && RunsOK(s) && p < |s.calls| && s.calls[p].stage == Fetching(id)
    ensures var s' := Step(s, Advance(p, freshID, outcome, saved));
      && p < |s'.calls| && s' == Move(s, p, s'.calls[p].stage) && StageOK(s', p)
      && Progress(s'.calls[p]) >= Progress(s.calls[p])
  {
    assert RoleOK(s, p) && StageOK(s, p);
    assert RequestOK(s, RequestKey(s.calls[p].call));
  }

  /** The invariant holds after every interleaving. */
  lemma {:induction false} ExecInv(s: State, actions: seq<Action>)
    requires Inv(s)
    ensures Inv(Exec(s, actions))
    decreases |actions|
  {
    if actions != [] {
      StepInv(s, actions[0]);
      ExecInv(Step(s, actions[0]), actions[1..]);
    }
  }

  lemma Reachable(actions: seq<Action>)
    ensures Inv(Exec(Init(), actions))
  {
    ExecInv(Init(), actions);
  }

  // ---- the promises ----

  /** Two calls of one logical request: the same non-empty token in the same scope. */
  predicate SameRequest(a: Call, b: Call) {
    a.token != "" && b.token != "" && RequestKey(a) == RequestKey(b)
  }

  /** The runs created for one logical request are at most one, every run in the store was created by
      exactly one call of its scope, and no call takes the branch that would start a second run for a
      completed request without a submission id. */
  ghost predicate OneRunPerRequest(s: State) {
    && (forall id :: id in s.creators ==> s.creators[id] < |s.calls|)
    && (forall id1, id2 :: id1 in s.creators && id2 in s.creators ==>
          SameRequest(s.calls[s.creators[id1]].call, s.calls[s.creators[id2]].call) ==> id1 == id2)
    && (forall scope, id :: FindRun(s.runs, scope, id).Some? ==>
          id in s.creators && s.calls[s.creators[id]].call.scope == scope)
    && (forall p :: 0 <= p < |s.calls| ==> s.calls[p].role != Stray)
  }

  lemma AtMostOneRun(actions: seq<Action>)
    ensures OneRunPerRequest(Exec(Init(), actions))
  {
    Reachable(actions);
    InvOneRun(Exec(Init(), actions));
  }

  lemma InvOneRun(s: State)
    requires Inv(s)
    ensures OneRunPerRequest(s)
  {
    forall id1, id2 | id1 in s.creators && id2 in s.creators
      && SameRequest(s.calls[s.creators[id1]].call, s.calls[s.creators[id2]].call)
      ensures id1 == id2
    {
      assert RoleOK(s, s.creators[id1]) && RoleOK(s, s.creators[id2]);
    }
    forall p | 0 <= p < |s.calls| ensures s.calls[p].role != Stray {
      assert RoleOK(s, p);
    }
  }

  /** What an accepted call was told: its run is stored as it saw it and finished; the run is terminal
      unless the supervisor's status was outside the protocol, and for a joiner regardless. */
  ghost predicate ToldOutcome(s: State, a: Process) {
    a.stage.Accepted? ==>
      var run := a.stage.run;
      && FindRun(s.runs, a.call.scope, run.id) == Some(run)
      && run.completed
      && (IsTerminal(run.status) <==> !(run.judge.Some? && run.judge.value.Unknown?))
      && (a.role == Joiner ==> IsTerminal(run.status))
  }

  /** Accepted owner, joiners and replayers of one logical request got one submission id and brought
      one fingerprint. */
  ghost predicate Agree(a: Process, b: Process) {
    a.stage.Accepted? && b.stage.Accepted? && SameRequest(a.call, b.call) ==>
      a.stage.run.id == b.stage.run.id && a.call.fingerprint == b.call.fingerprint
  }

  lemma SameSubmission(actions: seq<Action>)
    ensures var calls := Exec(Init(), actions).calls;
      forall p, q :: 0 <= p < |calls| && 0 <= q < |calls| ==> Agree(calls[p], calls[q])
    ensures var s := Exec(Init(), actions);
      forall p :: 0 <= p < |s.calls| ==> ToldOutcome(s, s.calls[p])
  {
    Reachable(actions);
    InvSame(Exec(Init(), actions));
  }

  lemma InvSame(s: State)
    requires Inv(s)
    ensures forall p, q :: 0 <= p < |s.calls| && 0 <= q < |s.calls| ==> Agree(s.calls[p], s.calls[q])
    ensures forall p :: 0 <= p < |s.calls| ==> ToldOutcome(s, s.calls[p])
  {
    forall p, q | 0 <= p < |s.calls| && 0 <= q < |s.calls| ensures Agree(s.calls[p], s.calls[q]) {
      InvAgree(s, p, q);
    }
    forall p | 0 <= p < |s.calls| ensures ToldOutcome(s, s.calls[p]) {
      InvTold(s, p);
    }
  }

  lemma InvAgree(s: State, p: nat, q: nat)
    requires CallsOK(s) && p < |s.calls| && q < |s.calls|
    ensures Agree(s.calls[p], s.calls[q])
  {
    assert RoleOK(s, p) && StageOK(s, p) && RoleOK(s, q) && StageOK(s, q);
  }

  lemma InvTold(s: State, p: nat)
    requires CallsOK(s) && RunsOK(s) && p < |s.calls|
    ensures ToldOutcome(s, s.calls[p])
  {
    assert RoleOK(s, p) && StageOK(s, p);
  }

  /** A call whose fingerprint differs from its request's is stuck: it launched nothing, it recorded
      nothing, and any step it takes only rejects it. */
  ghost predicate Shut(s: State, p: nat)
    requires p < |s.calls|
  {
    && s.calls[p].stage in {Reserving, Rejected} && s.calls[p].launched == None
    && (forall i :: 0 <= i < |s.evidence| ==> s.evidence[i].caller != p)
    && (forall freshID, outcome, saved ::
          Step(s, Advance(p, freshID, outcome, saved)) == s.(calls := s.calls[p := s.calls[p].(stage := Rejected)]))
  }

  lemma FingerprintGuards(actions: seq<Action>, p: nat)
    requires var s := Exec(Init(), actions);
      p < |s.calls| && s.calls[p].call.token != "" && RequestKey(s.calls[p].call) in s.requests
      && s.requests[RequestKey(s.calls[p].call)].fingerprint != s.calls[p].call.fingerprint
    ensures Shut(Exec(Init(), actions), p)
  {
    Reachable(actions);
    InvShut(Exec(Init(), actions), p);
  }

  lemma InvShut(s: State, p: nat)
    requires Inv(s)
    requires p < |s.calls| && s.calls[p].call.token != "" && RequestKey(s.calls[p].call) in s.requests
    requires s.requests[RequestKey(s.calls[p].call)].fingerprint != s.calls[p].call.fingerprint
    ensures Shut(s, p)
  {
    assert RoleOK(s, p) && StageOK(s, p);
    assert s.calls[p].stage == Rejected ==> s.calls == s.calls[p := s.calls[p].(stage := Rejected)];
    assert s.(requests := s.requests) == s;
  }

  /** Each of the four evidence events of one logical request is recorded at most once, all by the owner
      that launched its run and for that run. */
  ghost predicate EvidenceOncePerRequest(s: State) {
    && (forall i :: 0 <= i < |s.evidence| ==> s.evidence[i].caller < |s.calls|)
    && (forall i, j :: 0 <= i < j < |s.evidence| ==>
          var e, f := s.evidence[i], s.evidence[j];
          SameRequest(s.calls[e.caller].call, s.calls[f.caller].call) ==>
            && e.event < f.event < EVIDENCE_EVENTS
            && e.caller == f.caller && e.runID == f.runID
            && s.calls[e.caller].role == Owner && s.calls[e.caller].launched == Some(e.runID))
  }

  lemma EvidenceOnce(actions: seq<Action>)
    ensures EvidenceOncePerRequest(Exec(Init(), actions))
  {
    Reachable(actions);
    InvEvidenceOnce(Exec(Init(), actions));
  }

  lemma InvEvidenceOnce(s: State)
    requires Inv(s)
    ensures EvidenceOncePerRequest(s)
  {
    forall i, j | 0 <= i < j < |s.evidence|
      && SameRequest(s.calls[s.evidence[i].caller].call, s.calls[s.evidence[j].caller].call)
      ensures s.evidence[i].caller == s.evidence[j].caller && s.calls[s.evidence[i].caller].role == Owner
    {
      assert RoleOK(s, s.evidence[i].caller) && RoleOK(s, s.evidence[j].caller);
    }
  }

  /** Distinct scopes and tokens are distinct requests: the composite key is injective when neither
      workspace nor user id holds a NUL, whatever the token holds. */
  lemma RequestKeyInjective(ws1: string, user1: string, a: Call, ws2: string, user2: string, b: Call)
    requires a.scope == Keys.Join([ws1, user1]) && b.scope == Keys.Join([ws2, user2])
    requires Keys.NulFree(ws1) && Keys.NulFree(user1) && Keys.NulFree(ws2) && Keys.NulFree(user2)
    ensures RequestKey(a) == RequestKey(b) <==> ws1 == ws2 && user1 == user2 && a.token == b.token
  {
    var x, y := [ws1, user1, a.token], [ws2, user2, b.token];
    assert x[1..][1..] == [a.token] && y[1..][1..] == [b.token];
    assert RequestKey(a) == Keys.Join(x) by { JoinTwice(ws1, user1, a.token); }
    assert RequestKey(b) == Keys.Join(y) by { JoinTwice(ws2, user2, b.token); }
    Keys.JoinInjective(x, y);
  }

  lemma JoinTwice(a: string, b: string, c: string)
    ensures Keys.Join([Keys.Join([a, b]), c]) == Keys.Join([a, b, c])
  {
    assert [a, b][1..] == [b] && [a, b, c][1..] == [b, c] && [b, c][1..] == [c];
    assert [Keys.Join([a, b]), c][1..] == [c];
    assert (a + [Keys.NUL] + b) + [Keys.NUL] + c == a + [Keys.NUL] + (b + [Keys.NUL] + c);
  }

  /** The exception in ToldOutcome is real: after a supervisor status outside the protocol a call is
      accepted with a run that is still marked running. */
  lemma UnknownVerdictStaysOpen()
    ensures exists actions :: LeftRunning(Exec(Init(), actions))
  {
    var go, arrive := SampleGo(), Arrive(SampleCall());
    var s1 := Step(Init(), arrive);
    var s2 := Step(s1, go);
    var s3 := Step(s2, go);
    var s4 := Step(s3, go);
    var s5 := Step(s4, go);
    var s6 := Step(s5, go);
    SampleStarts();
    SampleEnds(s4);
    ExecSix(arrive, go, s1, s2, s3, s4, s5, s6);
  }

  function SampleCall(): Call {
    Call("w", "", "", false, false)
  }

  function SampleGo(): Action {
    Advance(0, "exec_run_1", Judged(Unknown("?"), true), true)
  }

  ghost predicate SampleRunning(s: State) {
    && |s.calls| == 1 && s.calls[0].call == SampleCall()
    && s.calls[0].stage == Executing(NewRun("exec_run_1").(status := Running))
    && FindRun(s.runs, "w", "exec_run_1").Some?
  }

  lemma SampleStarts()
    ensures SampleRunning(Step(Step(Step(Step(Init(), Arrive(SampleCall())), SampleGo()), SampleGo()), SampleGo()))
  {
    var go := SampleGo();
    var s2 := Step(Step(Init(), Arrive(SampleCall())), go);
    var s3 := Step(s2, go);
    var run := NewRun("exec_run_1");
    assert !Blank(run.id) by { assert !IsSpace(run.id[0]); }
    assert s3.calls[0].stage == Starting(run);
    FindAfterCreate(s2.runs, "w", run, "w", run.id);
    FindAfterUpdate(s3.runs, "w", run.(status := Running), "w", run.id);
  }

  lemma SampleEnds(s: State)
    requires SampleRunning(s)
    ensures LeftRunning(Step(Step(s, SampleGo()), SampleGo()))
  {
  }

  ghost predicate LeftRunning(s: State) {
    |s.calls| == 1 && s.calls[0].stage.Accepted? && s.calls[0].stage.run.status == Running
  }

  lemma ExecSix(a: Action, go: Action, s1: State, s2: State, s3: State, s4: State, s5: State, s6: State)
    requires s1 == Step(Init(), a) && s2 == Step(s1, go) && s3 == Step(s2, go)
    requires s4 == Step(s3, go) && s5 == Step(s4, go) && s6 == Step(s5, go)
    ensures Exec(Init(), [a, go, go, go, go, go]) == s6
  {
    ExecCons(Init(), a, [go, go, go, go, go]);
    ExecCons(s1, go, [go, go, go, go]);
    ExecCons(s2, go, [go, go, go]);
    ExecCons(s3, go, [go, go]);
    ExecCons(s4, go, [go]);
    ExecCons(s5, go, []);
  }

  lemma ExecCons(s: State, a: Action, rest: seq<Action>)
    ensures Exec(s, [a] + rest) == Exec(Step(s, a), rest)
    ensures rest == [] ==> Exec(s, [a]) == Step(s, a)
  {
    assert ([a] + rest)[1..] == rest;
  }
}
