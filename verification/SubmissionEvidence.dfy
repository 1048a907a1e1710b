/** Which of the four memory events of an attempt are recorded: exactly those whose save succeeds. */
module SubmissionEvidence {
  import opened ExecutionStore
  import opened Options
  import opened Submission

  /** The events a call has recorded, in order. */
  function Recorded(evidence: seq<Evidence>, p: nat): seq<nat> {
    if evidence == [] then []
    else
      var rest, e := Recorded(evidence[..|evidence| - 1], p), evidence[|evidence| - 1];
      if e.caller == p then rest + [e.event] else rest
  }

  function Events(n: nat): seq<nat> {
    seq(n, i => i)
  }

  /** The action fails to save an event of the call. */
  predicate FailsSave(s: State, a: Action, p: nat) {
    && a.Advance? && a.caller == p && p < |s.calls| && !a.saved
    && s.calls[p].stage.Recording? && s.calls[p].stage.next < EVIDENCE_EVENTS
  }

  /** Some action of the run does. */
  predicate EverFailsSave(s: State, actions: seq<Action>, p: nat)
    decreases |actions|
  {
    actions != [] && (FailsSave(s, actions[0], p) || EverFailsSave(Step(s, actions[0]), actions[1..], p))
  }

  /** The call launched the run it was told of, and that is a graded attempt. */
  predicate Attempted(c: Process) {
    c.stage.Accepted? && c.launched.Some? && Graded(c.call, c.stage.run)
  }

  /** How many events have been tried so far. */
  function Tried(c: Process): nat {
    if c.stage.Recording? then c.stage.next else if Attempted(c) then EVIDENCE_EVENTS else 0
  }

  /** All that were tried are recorded, or one of them failed. */
  ghost predicate RecordedOK(evidence: seq<Evidence>, p: nat, tried: nat, failed: bool) {
    if failed then |Recorded(evidence, p)| < tried else Recorded(evidence, p) == Events(tried)
  }

  ghost predicate Tracked(s: State, p: nat, failed: bool) {
    if p >= |s.calls| then !failed && Recorded(s.evidence, p) == []
    else
      && (s.calls[p].stage != Rejected ==> RecordedOK(s.evidence, p, Tried(s.calls[p]), failed))
      && (s.calls[p].stage.Recording? ==>
            && s.calls[p].stage.next <= EVIDENCE_EVENTS
            && s.calls[p].launched.Some? && Graded(s.calls[p].call, s.calls[p].stage.run))
      && (s.calls[p].role in {Joiner, Replayer} ==> s.calls[p].launched == None)
  }

  lemma RecordedNext(evidence: seq<Evidence>, e: Evidence, p: nat)
    ensures Recorded(evidence + [e], p)
         == if e.caller == p then Recorded(evidence, p) + [e.event] else Recorded(evidence, p)
  {
    assert (evidence + [e])[..|evidence|] == evidence;
  }

  lemma StepTracked(s: State, a: Action, p: nat, failed: bool)
    requires Inv(s) && Tracked(s, p, failed)
    ensures Tracked(Step(s, a), p, failed || FailsSave(s, a, p))
  {
    match a
    case Arrive(_) =>
    case Abort(_) =>
    case Advance(q, freshID, outcome, saved) =>
      if q < |s.calls| {
        if s.calls[q].stage.Recording? {
          RecordTracked(s, q, s.calls[q].stage.run, s.calls[q].stage.next, saved, p, failed);
        } else {
          QuietStep(s, a);
          QuietTracked(s, Step(s, a), p, q, failed);
        }
      }
  }

  lemma RecordTracked(s: State, q: nat, run: Run, next: nat, saved: bool, p: nat, failed: bool)
    requires Tracked(s, p, failed) && q < |s.calls| && s.calls[q].stage == Recording(run, next)
    ensures Tracked(RecordStep(s, q, run, next, saved), p,
                    failed || (p == q && !saved && next < EVIDENCE_EVENTS))
  {
    if next < EVIDENCE_EVENTS && saved {
      RecordedNext(s.evidence, Evidence(q, run.id, next), p);
    }
    assert Events(next) + [next] == Events(next + 1);
  }

  /** Every other step records nothing, leaves the other calls, and takes its own at most to the first event of
      a graded attempt that it launched. */
  ghost predicate Quiet(s: State, t: State, p: nat) {
    && p < |s.calls| == |t.calls| && t.evidence == s.evidence
    && (forall q :: 0 <= q < |s.calls| && q != p ==> t.calls[q] == s.calls[q])
    && (t.calls[p] == s.calls[p] || Begins(t.calls[p]))
  }

  predicate Begins(c: Process) {
    && !Attempted(c)
    && (c.stage.Recording? ==> c.stage.next == 0 && c.launched.Some? && Graded(c.call, c.stage.run))
    && (c.role in {Joiner, Replayer} ==> c.launched == None)
  }

  lemma MoveQuiet(s: State, p: nat, stage: Stage)
    requires p < |s.calls| && Begins(s.calls[p].(stage := stage))
    ensures Quiet(s, Move(s, p, stage), p)
  {
  }

  lemma ReserveQuiet(s: State, p: nat)
    requires p < |s.calls| && s.calls[p].launched == None
    ensures Quiet(s, ReserveStep(s, p), p)
  {
  }

  lemma CreateQuiet(s: State, p: nat, freshID: string)
    requires p < |s.calls| && s.calls[p].role in {Owner, NoToken}
    ensures Quiet(s, CreateStep(s, p, freshID), p)
  {
  }

  lemma AfterRunBegins(c: Process, run: Run)
    requires c.launched.Some? && c.role in {Owner, NoToken}
    ensures Begins(c.(stage := AfterRun(c.call, run)))
  {
  }

  lemma UpdateQuiet(s: State, p: nat, run: Run, next: Stage)
    requires p < |s.calls| && s.calls[p].role in {Owner, NoToken} && Begins(s.calls[p].(stage := next))
    ensures Quiet(s, UpdateStep(s, p, run, next), p)
  {
  }

  lemma CloseQuiet(s: State, p: nat, run: Run, next: Stage)
    requires p < |s.calls| && RoleOK(s, p) && Begins(s.calls[p].(stage := next))
    ensures Quiet(s, CloseStep(s, p, run, next), p)
  {
  }

  lemma JoinerQuiet(s: State, a: Action)
    requires a.Advance? && a.caller < |s.calls| && RoleOK(s, a.caller) && s.calls[a.caller].launched == None
    requires var stage := s.calls[a.caller].stage;
      stage.Awaiting? || stage.Waiting? || stage.JoinClosing? || stage.Fetching?
    ensures Quiet(s, Step(s, a), a.caller)
  {
    var p := a.caller;
    match s.calls[p].stage
    case Awaiting => if AwaitStep(s, p) != s { MoveQuiet(s, p, AwaitStep(s, p).calls[p].stage); }
    case Waiting(runID) => if WaitStep(s, p, runID) != s { MoveQuiet(s, p, WaitStep(s, p, runID).calls[p].stage); }
    case JoinClosing(run) => CloseQuiet(s, p, run, Accepted(run));
    case Fetching(_) => MoveQuiet(s, p, Step(s, a).calls[p].stage);
  }

  lemma QuietStep(s: State, a: Action)
    requires Inv(s) && a.Advance? && a.caller < |s.calls| && !s.calls[a.caller].stage.Recording?
    ensures Quiet(s, Step(s, a), a.caller)
  {
    var p := a.caller;
    assert RoleOK(s, p) && StageOK(s, p);
    match s.calls[p].stage
    case Reserving => ReserveQuiet(s, p);
    case Awaiting => JoinerQuiet(s, a);
    case Waiting(_) => JoinerQuiet(s, a);
    case JoinClosing(_) => JoinerQuiet(s, a);
    case Fetching(_) => JoinerQuiet(s, a);
    case Creating => CreateQuiet(s, p, a.freshID);
    case Starting(run) => UpdateQuiet(s, p, run.(status := Running), Executing(run.(status := Running)));
    case Executing(run) => MoveQuiet(s, p, Finishing(Finished(run, a.outcome)));
    case Finishing(run) =>
      AfterRunBegins(s.calls[p], run);
      UpdateQuiet(s, p, run, if s.calls[p].call.token != "" then Binding(run) else AfterRun(s.calls[p].call, run));
    case Binding(run) => MoveQuiet(s, p, BindStep(s, p, run).calls[p].stage);
    case Closing(run) =>
      AfterRunBegins(s.calls[p], run);
      CloseQuiet(s, p, run, AfterRun(s.calls[p].call, run));
    case _ =>
  }

  lemma QuietTracked(s: State, t: State, p: nat, q: nat, failed: bool)
    requires Tracked(s, p, failed) && Quiet(s, t, q)
    requires s.calls[q].stage.Recording? || s.calls[q].stage.Accepted? ==> t.calls[q] == s.calls[q]
    requires s.calls[q].stage == Rejected ==> t.calls[q] == s.calls[q]
    ensures Tracked(t, p, failed)
  {
  }

  lemma {:induction false} ExecTracked(s: State, actions: seq<Action>, p: nat, failed: bool)
    requires Inv(s) && Tracked(s, p, failed)
    ensures Tracked(Exec(s, actions), p, failed || EverFailsSave(s, actions, p))
    decreases |actions|
  {
    if actions != [] {
      StepInv(s, actions[0]);
      StepTracked(s, actions[0], p, failed);
      ExecTracked(Step(s, actions[0]), actions[1..], p, failed || FailsSave(s, actions[0], p));
    }
  }

  /** If accepted, the call has recorded all four events, in order, exactly when none failed, provided it
      launched a graded attempt; otherwise nothing. */
  ghost predicate RecordsAll(s: State, p: nat, failed: bool) {
    p < |s.calls| && s.calls[p].stage.Accepted? ==>
      if Attempted(s.calls[p]) then Recorded(s.evidence, p) == Events(EVIDENCE_EVENTS) <==> !failed
      else Recorded(s.evidence, p) == []
  }

  lemma TrackedRecordsAll(s: State, p: nat, failed: bool)
    requires Tracked(s, p, failed)
    ensures RecordsAll(s, p, failed)
  {
  }

  /** In every run: an accepted call that launched a graded attempt has recorded all four events, in order,
      exactly when none of its saves failed; any other accepted call has recorded nothing. */
  lemma AllRecordedIff(actions: seq<Action>, p: nat)
    ensures RecordsAll(Exec(Init(), actions), p, EverFailsSave(Init(), actions, p))
  {
    Reachable([]);
    assert Exec(Init(), []) == Init();
    ExecTracked(Init(), actions, p, false);
    TrackedRecordsAll(Exec(Init(), actions), p, EverFailsSave(Init(), actions, p));
  }
}
