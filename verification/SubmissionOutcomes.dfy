/** What the sandbox runner can deliver, and what accepted callers are therefore told. The runner takes its
    result from ParseJudgeResult or ReconstructJudgeResult, and both give a well-formed one. */
module SubmissionOutcomes {
  import opened ExecutionStore
  import opened Options
  import opened Submission
  import Judge

  /** The status switch of SubmitRun on the protocol's strings. */
  function StatusOf(status: string): JudgeStatus {
    if status == Judge.PASSED then JudgePassed
    else if status == Judge.FAILED then JudgeFailed
    else if status == Judge.TIMEOUT then JudgeTimeout
    else if status == Judge.OUT_OF_MEMORY then JudgeOutOfMemory
    else if status == Judge.CRASHED then JudgeCrashed
    else Unknown(status)
  }

  /** An outcome the sandbox runner can return: its own error, or a well-formed judge result, whose tests
      decode exactly when it is gradable. */
  ghost predicate Deliverable(outcome: Outcome) {
    outcome.RunnerError?
    || (outcome.Judged? && exists r :: Judge.WellFormed(r) && outcome == Judged(StatusOf(r.status), Judge.Gradable(r)))
  }

  ghost predicate SandboxOnly(actions: seq<Action>) {
    forall a :: a in actions && a.Advance? ==> Deliverable(a.outcome)
  }

  /** What ParseJudgeResult accepts can be delivered. */
  method ParsedDeliverable(data: string, decode: string -> Option<Judge.JudgeResult>)
    returns (r: Judge.Parsed, ghost outcome: Outcome)
    ensures r.Accepted? ==>
      Deliverable(outcome) && outcome == Judged(StatusOf(r.result.status), Judge.Gradable(r.result))
    ensures r.Accepted? <==> decode(data).Some? && Judge.WellFormed(decode(data).value)
  {
    r := Judge.ParseJudgeResult(data, decode);
    outcome := RunnerError;
    if r.Accepted? {
      outcome := Judged(StatusOf(r.result.status), Judge.Gradable(r.result));
      assert Judge.WellFormed(r.result);
    }
  }

  /** And so can whatever ReconstructJudgeResult makes of a dead run. */
  lemma ReconstructedDeliverable(input: Judge.Input, codec: Judge.Codec)
    ensures var r := Judge.Reconstruction(input, codec); Deliverable(Judged(StatusOf(r.status), Judge.Gradable(r)))
  {
    Judge.ReconstructionWellFormed(input, codec);
  }

  lemma KnownStatus(status: string)
    ensures StatusOf(status).Unknown? <==> !Judge.IsJudgeStatus(status)
  {
  }

  lemma DeliveredKnown(outcome: Outcome)
    requires Deliverable(outcome)
    ensures outcome.Judged? ==> !outcome.status.Unknown?
  {
    if outcome.Judged? {
      var r :| Judge.WellFormed(r) && outcome == Judged(StatusOf(r.status), Judge.Gradable(r));
      KnownStatus(r.status);
    }
  }

  // ---- no run is left with an unknown status ----

  predicate Known(run: Run) {
    run.judge.Some? ==> !run.judge.value.Unknown?
  }

  predicate AllKnown(rs: seq<Run>) {
    forall i :: 0 <= i < |rs| ==> Known(rs[i])
  }

  predicate StageKnown(stage: Stage) {
    match stage
    case JoinClosing(run) => Known(run)
    case Starting(run) => Known(run)
    case Executing(run) => Known(run)
    case Finishing(run) => Known(run)
    case Binding(run) => Known(run)
    case Closing(run) => Known(run)
    case Recording(run, _) => Known(run)
    case Accepted(run) => Known(run)
    case _ => true
  }

  ghost predicate StateKnown(s: State) {
    && (forall scope :: AllKnown(RunsOf(s.runs, scope)))
    && (forall p :: 0 <= p < |s.calls| ==> StageKnown(s.calls[p].stage))
  }

  lemma {:induction false} FoundKnown(rs: seq<Run>, id: string)
    requires AllKnown(rs)
    ensures FirstWith(rs, id).Some? ==> Known(FirstWith(rs, id).value)
  {
    if rs != [] {
      FoundKnown(rs[1..], id);
    }
  }

  lemma {:induction false} ReplacedKnown(rs: seq<Run>, run: Run)
    requires AllKnown(rs) && Known(run)
    ensures AllKnown(ReplaceFirst(rs, run))
  {
    if rs != [] {
      ReplacedKnown(rs[1..], run);
    }
  }

  lemma WithRunKnown(runs: Runs, scope: string, run: Run)
    requires (forall sc :: AllKnown(RunsOf(runs, sc))) && Known(run)
    ensures forall sc :: AllKnown(RunsOf(WithRun(runs, scope, run), sc))
  {
    forall sc ensures AllKnown(RunsOf(WithRun(runs, scope, run), sc)) {
      assert AllKnown(RunsOf(runs, sc));
    }
  }

  lemma WithUpdateKnown(runs: Runs, scope: string, run: Run)
    requires (forall sc :: AllKnown(RunsOf(runs, sc))) && Known(run)
    ensures forall sc :: AllKnown(RunsOf(WithUpdate(runs, scope, run), sc))
  {
    ReplacedKnown(RunsOf(runs, scope), run);
    forall sc ensures AllKnown(RunsOf(WithUpdate(runs, scope, run), sc)) {
      assert AllKnown(RunsOf(runs, sc));
    }
  }

  lemma StepKnown(s: State, a: Action)
    requires StateKnown(s) && (a.Advance? && a.outcome.Judged? ==> !a.outcome.status.Unknown?)
    ensures StateKnown(Step(s, a))
  {
    match a
    case Arrive(_) =>
    case Abort(_) =>
    case Advance(p, freshID, outcome, saved) => if p < |s.calls| { AdvanceKnown(s, p, freshID, outcome, saved); }
  }

  lemma AdvanceKnown(s: State, p: nat, freshID: string, outcome: Outcome, saved: bool)
    requires StateKnown(s) && p < |s.calls| && (outcome.Judged? ==> !outcome.status.Unknown?)
    ensures StateKnown(Step(s, Advance(p, freshID, outcome, saved)))
  {
    assert StageKnown(s.calls[p].stage);
    match s.calls[p].stage
    case Reserving => ReserveKnown(s, p);
    case Awaiting => AwaitKnown(s, p);
    case Waiting(runID) => WaitKnown(s, p, runID);
    case Fetching(runID) => FetchKnown(s, p, runID, freshID, outcome, saved);
    case Binding(run) => BindKnown(s, p, run);
    case Recording(run, next) => RecordKnown(s, p, run, next, saved);
    case Creating => CreateKnown(s, p, freshID);
    case Starting(run) => UpdateKnown(s, p, run.(status := Running), Executing(run.(status := Running)));
    case Executing(run) => MoveKnown(s, p, Finishing(Finished(run, outcome)));
    case Finishing(run) =>
      UpdateKnown(s, p, run, if s.calls[p].call.token != "" then Binding(run) else AfterRun(s.calls[p].call, run));
    case Closing(run) => CloseKnown(s, p, run, AfterRun(s.calls[p].call, run));
    case JoinClosing(run) => CloseKnown(s, p, run, Accepted(run));
    case _ =>
  }

  lemma MoveKnown(s: State, p: nat, stage: Stage)
    requires StateKnown(s) && p < |s.calls| && StageKnown(stage)
    ensures StateKnown(Move(s, p, stage))
  {
  }

  lemma ReserveKnown(s: State, p: nat)
    requires StateKnown(s) && p < |s.calls|
    ensures StateKnown(ReserveStep(s, p))
  {
  }

  lemma AwaitKnown(s: State, p: nat)
    requires StateKnown(s) && p < |s.calls|
    ensures StateKnown(AwaitStep(s, p))
  {
  }

  lemma FetchKnown(s: State, p: nat, runID: string, freshID: string, outcome: Outcome, saved: bool)
    requires StateKnown(s) && p < |s.calls| && s.calls[p].stage == Fetching(runID)
    ensures StateKnown(Step(s, Advance(p, freshID, outcome, saved)))
  {
    var found := FindRun(s.runs, s.calls[p].call.scope, runID);
    FoundKnown(RunsOf(s.runs, s.calls[p].call.scope), runID);
    MoveKnown(s, p, if found.None? then Rejected else Accepted(found.value));
  }

  lemma BindKnown(s: State, p: nat, run: Run)
    requires StateKnown(s) && p < |s.calls| && Known(run)
    ensures StateKnown(BindStep(s, p, run))
  {
  }

  lemma RecordKnown(s: State, p: nat, run: Run, next: nat, saved: bool)
    requires StateKnown(s) && p < |s.calls| && Known(run)
    ensures StateKnown(RecordStep(s, p, run, next, saved))
  {
  }

  lemma WaitKnown(s: State, p: nat, runID: string)
    requires StateKnown(s) && p < |s.calls|
    ensures StateKnown(WaitStep(s, p, runID))
  {
    FoundKnown(RunsOf(s.runs, s.calls[p].call.scope), runID);
  }

  lemma CreateKnown(s: State, p: nat, freshID: string)
    requires StateKnown(s) && p < |s.calls|
    ensures StateKnown(CreateStep(s, p, freshID))
  {
    WithRunKnown(s.runs, s.calls[p].call.scope, NewRun(freshID));
  }

  lemma UpdateKnown(s: State, p: nat, run: Run, next: Stage)
    requires StateKnown(s) && p < |s.calls| && Known(run) && StageKnown(next)
    ensures StateKnown(UpdateStep(s, p, run, next))
  {
    var scope := s.calls[p].call.scope;
    if FindRun(s.runs, scope, run.id) == None {
      MoveKnown(s, p, Rejected);
    } else {
      WithUpdateKnown(s.runs, scope, run);
      MoveKnown(s.(runs := WithUpdate(s.runs, scope, run)), p, next);
    }
  }

  lemma CloseKnown(s: State, p: nat, run: Run, next: Stage)
    requires StateKnown(s) && p < |s.calls| && StageKnown(next)
    ensures StateKnown(CloseStep(s, p, run, next))
  {
  }

  /** No runner result carries a status outside the protocol. */
  predicate KnownOutcomes(actions: seq<Action>) {
    forall a :: a in actions && a.Advance? && a.outcome.Judged? ==> !a.outcome.status.Unknown?
  }

  lemma {:induction false} ExecKnown(s: State, actions: seq<Action>)
    requires StateKnown(s) && KnownOutcomes(actions)
    ensures StateKnown(Exec(s, actions))
    decreases |actions|
  {
    if actions != [] {
      assert actions[0] in actions;
      assert forall a :: a in actions[1..] ==> a in actions;
      StepKnown(s, actions[0]);
      ExecKnown(Step(s, actions[0]), actions[1..]);
    }
  }

  /** Whatever the runner, as long as its statuses are the protocol's: every accepted caller, whether it
      owns, joins or replays, is told a run that is stored, finished and terminal. */
  lemma AcceptedIsTerminal(actions: seq<Action>, p: nat)
    requires KnownOutcomes(actions)
    requires p < |Exec(Init(), actions).calls| && Exec(Init(), actions).calls[p].stage.Accepted?
    ensures var s := Exec(Init(), actions);
      var run := s.calls[p].stage.run;
      FindRun(s.runs, s.calls[p].call.scope, run.id) == Some(run) && run.completed && IsTerminal(run.status)
  {
    ExecKnown(Init(), actions);
    SameSubmission(actions);
    var s := Exec(Init(), actions);
    assert ToldOutcome(s, s.calls[p]) && StageKnown(s.calls[p].stage);
  }

  /** The sandbox runner's statuses are. */
  lemma SandboxKnown(actions: seq<Action>)
    requires SandboxOnly(actions)
    ensures KnownOutcomes(actions)
  {
    forall a | a in actions && a.Advance? && a.outcome.Judged? ensures !a.outcome.status.Unknown? {
      DeliveredKnown(a.outcome);
    }
  }
}
