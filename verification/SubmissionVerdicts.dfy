/** Which status a run is given for which runner outcome, and what accepted callers are told of it. */
module SubmissionVerdicts {
  import opened ExecutionStore
  import opened Options
  import opened Submission
  import opened SubmissionEvidence
  import opened SubmissionOutcomes
  import Judge

  // ---- what the runner answered ----

  /** A history variable: the runner's outcome for each run id, as the run goes on. */
  function Ran(s: State, actions: seq<Action>, ran: map<string, Outcome>): map<string, Outcome>
    decreases |actions|
  {
    if actions == [] then ran else Ran(Step(s, actions[0]), actions[1..], RanNext(s, actions[0], ran))
  }

  function RanNext(s: State, a: Action, ran: map<string, Outcome>): map<string, Outcome> {
    if a.Advance? && a.caller < |s.calls| && s.calls[a.caller].stage.Executing?
    then ran[s.calls[a.caller].stage.run.id := a.outcome] else ran
  }

  /** The status that belongs to an outcome: an error for a runner error, the exit code's for the older
      protocol, the supervisor's own otherwise, and none for a status outside the protocol. */
  predicate Fits(run: Run, outcome: Outcome) {
    run.completed && match outcome
    case RunnerError => run.status == Error && !run.gradable && run.judge == None
    case ExitCode(code, decodes) =>
      && run.status in {Passed, Failed} && (run.status == Passed <==> code == 0)
      && run.gradable == decodes && run.judge == None
    case Judged(status, decodes) =>
      && (run.status == Passed <==> status == JudgePassed)
      && (run.status == Failed <==> status == JudgeFailed)
      && (run.status == Timeout <==> status == JudgeTimeout)
      && (run.status == OutOfMemory <==> status == JudgeOutOfMemory)
      && (run.status == Crashed <==> status == JudgeCrashed)
      && (run.status == Running <==> status.Unknown?)
      && run.gradable == decodes && run.judge == Some(status)
  }

  // ---- every step keeps it ----

  ghost predicate StoredFit(s: State, ran: map<string, Outcome>) {
    forall scope, id :: FindRun(s.runs, scope, id).Some? && FindRun(s.runs, scope, id).value.completed ==>
      id in ran && Fits(FindRun(s.runs, scope, id).value, ran[id])
  }

  /** A run about to be stored fits; one about to be started or executed is queued or running, with nothing to
      grade yet. */
  predicate CallFits(c: Process, ran: map<string, Outcome>) {
    match c.stage
    case Starting(run) => run.status == Queued && !run.gradable
    case Executing(run) => run.status == Running && !run.gradable
    case Finishing(run) => run.id in ran && Fits(run, ran[run.id])
    case _ => true
  }

  ghost predicate AllFit(s: State, ran: map<string, Outcome>) {
    StoredFit(s, ran) && forall p :: 0 <= p < |s.calls| ==> CallFits(s.calls[p], ran)
  }

  /** The runs are as they were, and no call but one moved. */
  lemma SameRunsFit(s: State, t: State, p: nat, ran: map<string, Outcome>)
    requires AllFit(s, ran) && t.runs == s.runs && p < |s.calls| == |t.calls|
    requires forall q :: 0 <= q < |s.calls| && q != p ==> t.calls[q] == s.calls[q]
    requires CallFits(t.calls[p], ran)
    ensures AllFit(t, ran)
  {
    assert forall scope, id :: FindRun(t.runs, scope, id) == FindRun(s.runs, scope, id);
  }

  lemma ExecuteFits(s: State, p: nat, run: Run, outcome: Outcome, ran: map<string, Outcome>)
    requires Inv(s) && AllFit(s, ran) && p < |s.calls| && s.calls[p].stage == Executing(run)
    ensures AllFit(Move(s, p, Finishing(Finished(run, outcome))), ran[run.id := outcome])
  {
    var t, more := Move(s, p, Finishing(Finished(run, outcome))), ran[run.id := outcome];
    assert RoleOK(s, p) && StageOK(s, p) && CallFits(s.calls[p], ran);
    forall scope, id | FindRun(t.runs, scope, id).Some? && FindRun(t.runs, scope, id).value.completed
      ensures id in more && Fits(FindRun(t.runs, scope, id).value, more[id])
    {
      assert FindRun(s.runs, scope, id) == FindRun(t.runs, scope, id);
    }
    forall q | 0 <= q < |t.calls| ensures CallFits(t.calls[q], more) {
      if q != p {
        assert RoleOK(s, q) && StageOK(s, q) && CallFits(s.calls[q], ran);
      }
    }
  }

  /** One run is created or written. */
  lemma WrittenFits(s: State, t: State, p: nat, run: Run, ran: map<string, Outcome>)
    requires AllFit(s, ran) && p < |s.calls| == |t.calls| && FindsOnly(s, t, s.calls[p].call.scope, run)
    requires forall q :: 0 <= q < |s.calls| && q != p ==> t.calls[q] == s.calls[q]
    requires CallFits(t.calls[p], ran) && (run.completed ==> run.id in ran && Fits(run, ran[run.id]))
    ensures AllFit(t, ran)
  {
  }

  lemma UpdateFits(s: State, p: nat, run: Run, next: Stage, ran: map<string, Outcome>)
    requires AllFit(s, ran) && p < |s.calls| && CallFits(s.calls[p].(stage := next), ran)
    requires run.completed ==> run.id in ran && Fits(run, ran[run.id])
    ensures AllFit(UpdateStep(s, p, run, next), ran)
  {
    var t := UpdateStep(s, p, run, next);
    if FindRun(s.runs, s.calls[p].call.scope, run.id) == None {
      SameRunsFit(s, t, p, ran);
    } else {
      UpdateFinds(s, p, run, next);
      WrittenFits(s, t, p, run, ran);
    }
  }

  lemma CreateFits(s: State, p: nat, freshID: string, ran: map<string, Outcome>)
    requires Inv(s) && AllFit(s, ran) && p < |s.calls| && s.calls[p].stage == Creating
    ensures AllFit(CreateStep(s, p, freshID), ran)
  {
    var t := CreateStep(s, p, freshID);
    if t != s {
      CreateFinds(s, p, freshID);
      WrittenFits(s, t, p, NewRun(freshID), ran);
    }
  }

  lemma StepFits(s: State, a: Action, ran: map<string, Outcome>)
    requires Inv(s) && AllFit(s, ran)
    ensures AllFit(Step(s, a), RanNext(s, a, ran))
  {
    match a
    case Arrive(_) => assert forall scope, id :: FindRun(Step(s, a).runs, scope, id) == FindRun(s.runs, scope, id);
    case Abort(p) => if p < |s.calls| && !s.calls[p].stage.Accepted? { SameRunsFit(s, Step(s, a), p, ran); }
    case Advance(p, freshID, outcome, saved) => if p < |s.calls| { AdvanceFits(s, p, freshID, outcome, saved, ran); }
  }

  lemma AdvanceFits(s: State, p: nat, freshID: string, outcome: Outcome, saved: bool, ran: map<string, Outcome>)
    requires Inv(s) && AllFit(s, ran) && p < |s.calls|
    ensures var a := Advance(p, freshID, outcome, saved); AllFit(Step(s, a), RanNext(s, a, ran))
  {
    var t := Step(s, Advance(p, freshID, outcome, saved));
    assert CallFits(s.calls[p], ran) && StageOK(s, p);
    match s.calls[p].stage
    case Creating => CreateFits(s, p, freshID, ran);
    case Starting(run) => UpdateFits(s, p, run.(status := Running), Executing(run.(status := Running)), ran);
    case Executing(run) => ExecuteFits(s, p, run, outcome, ran);
    case Finishing(run) =>
      UpdateFits(
        s, p, run, if s.calls[p].call.token != "" then Binding(run) else AfterRun(s.calls[p].call, run), ran);
    case Accepted(_) =>
    case _ => QuietFits(s, p, freshID, outcome, saved, ran);
  }

  /** The other stages leave the runs alone. */
  lemma QuietFits(s: State, p: nat, freshID: string, outcome: Outcome, saved: bool, ran: map<string, Outcome>)
    requires AllFit(s, ran) && p < |s.calls|
    requires var stage := s.calls[p].stage;
      !stage.Creating? && !stage.Starting? && !stage.Executing? && !stage.Finishing?
    ensures AllFit(Step(s, Advance(p, freshID, outcome, saved)), ran)
  {
    var t := Step(s, Advance(p, freshID, outcome, saved));
    QuietRuns(s, p, freshID, outcome, saved);
    SameRunsFit(s, t, p, ran);
  }

  /** Only call p moves, to a stage that holds no run of its own making. */
  ghost predicate SameRuns(s: State, t: State, p: nat) {
    && t.runs == s.runs && p < |s.calls| == |t.calls|
    && (forall q :: 0 <= q < |s.calls| && q != p ==> t.calls[q] == s.calls[q])
    && !t.calls[p].stage.Starting? && !t.calls[p].stage.Executing? && !t.calls[p].stage.Finishing?
  }

  lemma ReserveSame(s: State, p: nat)
    requires p < |s.calls|
    ensures SameRuns(s, ReserveStep(s, p), p)
  {
  }

  lemma CloseSame(s: State, p: nat, run: Run, next: Stage)
    requires p < |s.calls| && !next.Starting? && !next.Executing? && !next.Finishing?
    ensures SameRuns(s, CloseStep(s, p, run, next), p)
  {
  }

  lemma RecordSame(s: State, p: nat, run: Run, next: nat, saved: bool)
    requires p < |s.calls|
    ensures SameRuns(s, RecordStep(s, p, run, next, saved), p)
  {
  }

  lemma BindSame(s: State, p: nat, run: Run)
    requires p < |s.calls|
    ensures SameRuns(s, BindStep(s, p, run), p)
  {
  }

  lemma WaitSame(s: State, p: nat)
    requires p < |s.calls|
    ensures s.calls[p].stage.Waiting? ==> SameRuns(s, WaitStep(s, p, s.calls[p].stage.runID), p)
    ensures s.calls[p].stage.Awaiting? ==> SameRuns(s, AwaitStep(s, p), p)
  {
  }

  lemma QuietRuns(s: State, p: nat, freshID: string, outcome: Outcome, saved: bool)
    requires p < |s.calls|
    requires var stage := s.calls[p].stage;
      !stage.Creating? && !stage.Starting? && !stage.Executing? && !stage.Finishing?
    ensures SameRuns(s, Step(s, Advance(p, freshID, outcome, saved)), p)
  {
    match s.calls[p].stage
    case Reserving => ReserveSame(s, p);
    case JoinClosing(run) => CloseSame(s, p, run, Accepted(run));
    case Closing(run) => CloseSame(s, p, run, AfterRun(s.calls[p].call, run));
    case Binding(run) => BindSame(s, p, run);
    case Recording(run, next) => RecordSame(s, p, run, next, saved);
    case _ => WaitSame(s, p);
  }

  lemma {:induction false} ExecFits(s: State, actions: seq<Action>, ran: map<string, Outcome>)
    requires Inv(s) && AllFit(s, ran)
    ensures AllFit(Exec(s, actions), Ran(s, actions, ran))
    decreases |actions|
  {
    if actions != [] {
      StepInv(s, actions[0]);
      StepFits(s, actions[0], ran);
      ExecFits(Step(s, actions[0]), actions[1..], RanNext(s, actions[0], ran));
    }
  }

  // ---- the promises ----

  /** The outcomes of a whole run. */
  function Outcomes(actions: seq<Action>): map<string, Outcome> {
    Ran(Init(), actions, map[])
  }

  lemma RunFits(actions: seq<Action>)
    ensures Inv(Exec(Init(), actions)) && AllFit(Exec(Init(), actions), Outcomes(actions))
  {
    Reachable([]);
    assert Exec(Init(), []) == Init();
    assert forall scope, id :: FindRun(Init().runs, scope, id) == None;
    ExecFits(Init(), actions, map[]);
    Reachable(actions);
  }

  /** In every run, every stored finished run, and the run every accepted caller is told, has the status that
      belongs to what the runner answered for it. */
  lemma VerdictFits(actions: seq<Action>)
    ensures var s, ran := Exec(Init(), actions), Outcomes(actions);
      && StoredFit(s, ran)
      && forall p :: 0 <= p < |s.calls| && s.calls[p].stage.Accepted? ==>
           s.calls[p].stage.run.id in ran && Fits(s.calls[p].stage.run, ran[s.calls[p].stage.run.id])
  {
    RunFits(actions);
    var s, ran := Exec(Init(), actions), Outcomes(actions);
    forall p | 0 <= p < |s.calls| && s.calls[p].stage.Accepted?
      ensures s.calls[p].stage.run.id in ran && Fits(s.calls[p].stage.run, ran[s.calls[p].stage.run.id])
    {
      assert StageOK(s, p);
    }
  }

  /** The outcome is the sandbox's delivery of this judge result. */
  predicate Delivers(outcome: Outcome, r: Judge.JudgeResult) {
    outcome == Judged(StatusOf(r.status), Judge.Gradable(r))
  }

  /** So an accepted caller is told the status the judge result names. */
  lemma ToldVerdict(actions: seq<Action>, p: nat, r: Judge.JudgeResult)
    requires p < |Exec(Init(), actions).calls| && Exec(Init(), actions).calls[p].stage.Accepted?
    requires var id := Exec(Init(), actions).calls[p].stage.run.id;
      id in Outcomes(actions) && Delivers(Outcomes(actions)[id], r)
    ensures var run := Exec(Init(), actions).calls[p].stage.run;
      && (run.status == Passed <==> r.status == "passed")
      && (run.status == Failed <==> r.status == "failed")
      && (run.status == Timeout <==> r.status == "timeout")
      && (run.status == OutOfMemory <==> r.status == "out_of_memory")
      && (run.status == Crashed <==> r.status == "crashed")
  {
    VerdictFits(actions);
    StatusesDiffer(r.status);
  }

  lemma StatusesDiffer(status: string)
    ensures (StatusOf(status) == JudgePassed <==> status == "passed")
      && (StatusOf(status) == JudgeFailed <==> status == "failed")
      && (StatusOf(status) == JudgeTimeout <==> status == "timeout")
      && (StatusOf(status) == JudgeOutOfMemory <==> status == "out_of_memory")
      && (StatusOf(status) == JudgeCrashed <==> status == "crashed")
  {
  }

  /** The runner came to a verdict that decodes. */
  predicate Decides(outcome: Outcome) {
    match outcome
    case RunnerError => false
    case ExitCode(_, decodes) => decodes
    case Judged(status, decodes) => decodes && (status == JudgePassed || status == JudgeFailed)
  }

  /** In every run: an accepted call has recorded the four events of an attempt exactly when it launched the
      run itself, in submit mode and for a session, the runner came to a decodable verdict, and no save
      failed; a call that is not such an attempt has recorded nothing. */
  lemma RecordedIffDecided(actions: seq<Action>, p: nat)
    requires p < |Exec(Init(), actions).calls| && Exec(Init(), actions).calls[p].stage.Accepted?
    ensures var s := Exec(Init(), actions);
      var c := s.calls[p];
      && c.stage.run.id in Outcomes(actions)
      && if c.launched.Some? && c.call.submitMode && c.call.hasSession && Decides(Outcomes(actions)[c.stage.run.id])
         then Recorded(s.evidence, p) == [0, 1, 2, 3] <==> !EverFailsSave(Init(), actions, p)
         else Recorded(s.evidence, p) == []
  {
    VerdictFits(actions);
    AllRecordedIff(actions, p);
    var s := Exec(Init(), actions);
    assert RecordsAll(s, p, EverFailsSave(Init(), actions, p));
    assert Events(EVIDENCE_EVENTS) == [0, 1, 2, 3];
  }
}
