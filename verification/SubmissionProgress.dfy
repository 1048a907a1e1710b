/** When a submission is rejected, what it can wait for, and that it ends. */
module SubmissionProgress {
  import opened ExecutionStore
  import opened Options
  import opened Submission
  import opened SubmissionEvidence
  import opened Text

  // ---- one step ----

  predicate Ended(c: Process) {
    c.stage.Accepted? || c.stage.Rejected?
  }

  predicate OwnStep(s: State, p: nat, a: Action) {
    a.Advance? && a.caller == p && p < |s.calls| && !Ended(s.calls[p])
  }

  /** The call asks for a token that another submission holds. */
  predicate Conflicts(s: State, p: nat, a: Action) {
    && OwnStep(s, p, a) && s.calls[p].stage.Reserving? && s.calls[p].call.token != ""
    && RequestKey(s.calls[p].call) in s.requests
    && s.requests[RequestKey(s.calls[p].call)].fingerprint != s.calls[p].call.fingerprint
  }

  /** The call looks for the run of its request, and its scope has none. */
  predicate Misses(s: State, p: nat, a: Action) {
    && OwnStep(s, p, a) && s.calls[p].stage.Fetching?
    && FindRun(s.runs, s.calls[p].call.scope, s.calls[p].stage.runID) == None
  }

  predicate Collide(a: Call, b: Call) {
    a.scope != b.scope && RequestKey(a) == RequestKey(b)
  }

  /** That takes two scopes with the same request key, so a NUL in an identifier (RequestKeyInjective). */
  lemma MissesByCollision(s: State, p: nat, a: Action)
    requires Inv(s) && Misses(s, p, a)
    ensures exists q :: 0 <= q < |s.calls| && Collide(s.calls[q].call, s.calls[p].call)
  {
    var key := RequestKey(s.calls[p].call);
    assert RoleOK(s, p) && StageOK(s, p) && RequestOK(s, key);
    assert Collide(s.calls[s.owners[key]].call, s.calls[p].call);
  }

  /** The call waits: for an id that is new, for the owner of its request to bind a run, or for that run to
      end. */
  predicate Waits(s: State, p: nat, a: Action) {
    && OwnStep(s, p, a)
    && match s.calls[p].stage
       case Creating => Blank(a.freshID) || a.freshID in s.creators
       case Awaiting =>
         RequestKey(s.calls[p].call) in s.requests && s.requests[RequestKey(s.calls[p].call)].runID == ""
       case Waiting(id) =>
         var run := FindRun(s.runs, s.calls[p].call.scope, id);
         run == None || run.value.status == Queued || run.value.status == Running
       case _ => false
  }

  /** The steps a call has left at most. */
  function Left(stage: Stage): nat {
    match stage
    case Reserving => 12
    case Creating => 11
    case Starting(_) => 10
    case Executing(_) => 9
    case Finishing(_) => 8
    case Binding(_) => 7
    case Closing(_) => 6
    case Recording(_, next) => if next < 5 then 5 - next else 1
    case Awaiting => 3
    case Waiting(_) => 2
    case JoinClosing(_) => 1
    case Fetching(_) => 1
    case _ => 0
  }

  /** A call that waits for a run knows which. */
  ghost predicate Sighted(s: State) {
    forall p :: 0 <= p < |s.calls| && s.calls[p].stage.Waiting? ==> !Blank(s.calls[p].stage.runID)
  }

  /** What a call's own step does to it. */
  ghost predicate Proceeds(s: State, p: nat, a: Action, t: State)
    requires p < |s.calls|
  {
    && p < |t.calls| && t.calls[p].call == s.calls[p].call
    && if Waits(s, p, a) then t.calls[p] == s.calls[p]
       else if Conflicts(s, p, a) || Misses(s, p, a) then t.calls[p].stage == Rejected
       else
         && t.calls[p].stage != Rejected && Left(t.calls[p].stage) < Left(s.calls[p].stage)
         && (t.calls[p].stage.Waiting? ==> !Blank(t.calls[p].stage.runID))
  }

  lemma OwnProceeds(s: State, p: nat, a: Action)
    requires Inv(s) && Sighted(s) && OwnStep(s, p, a)
    ensures Proceeds(s, p, a, Step(s, a))
  {
    assert RoleOK(s, p) && StageOK(s, p);
    var key, stage := RequestKey(s.calls[p].call), s.calls[p].stage;
    if stage.Reserving? || stage.Awaiting? || stage.Waiting? || stage.Fetching? {
      if key in s.requests { assert RequestOK(s, key); }
      LookupProceeds(s, p, a);
    } else if stage.Binding? || stage.Closing? || stage.JoinClosing? {
      CloseProceeds(s, p, a);
    } else if stage.Creating? {
      CreateProceeds(s, p, a);
    } else {
      RunProceeds(s, p, a);
    }
  }

  lemma LookupProceeds(s: State, p: nat, a: Action)
    requires OwnStep(s, p, a) && RoleOK(s, p) && StageOK(s, p) && Sighted(s)
    requires var key := RequestKey(s.calls[p].call); key in s.requests ==> RequestOK(s, key)
    requires var stage := s.calls[p].stage;
      stage.Reserving? || stage.Awaiting? || stage.Waiting? || stage.Fetching?
    ensures Proceeds(s, p, a, Step(s, a))
  {
    if s.calls[p].stage.Reserving? {
      ReserveProceeds(s, p, a);
    } else if s.calls[p].stage.Awaiting? {
      AwaitProceeds(s, p, a);
    } else if s.calls[p].stage.Waiting? {
      WaitProceeds(s, p, a);
    } else {
      FetchProceeds(s, p, a);
    }
  }

  lemma ReserveProceeds(s: State, p: nat, a: Action)
    requires OwnStep(s, p, a) && s.calls[p].stage.Reserving?
    requires var key := RequestKey(s.calls[p].call); key in s.requests ==> RequestOK(s, key)
    ensures Proceeds(s, p, a, Step(s, a))
  {
    assert Step(s, a) == ReserveStep(s, p);
  }

  lemma AwaitProceeds(s: State, p: nat, a: Action)
    requires OwnStep(s, p, a) && RoleOK(s, p) && s.calls[p].stage.Awaiting? && s.calls[p].role == Joiner
    requires var key := RequestKey(s.calls[p].call); key in s.requests ==> RequestOK(s, key)
    ensures Proceeds(s, p, a, Step(s, a))
  {
    var r := s.requests[RequestKey(s.calls[p].call)];
    assert r.runID != "" ==> !Blank(r.runID);
    assert Step(s, a) == AwaitStep(s, p);
  }

  lemma WaitProceeds(s: State, p: nat, a: Action)
    requires OwnStep(s, p, a) && RoleOK(s, p) && StageOK(s, p) && s.calls[p].stage.Waiting? && Sighted(s)
    requires var key := RequestKey(s.calls[p].call); key in s.requests ==> RequestOK(s, key)
    ensures Proceeds(s, p, a, Step(s, a))
  {
    assert Step(s, a) == WaitStep(s, p, s.calls[p].stage.runID);
  }

  lemma FetchProceeds(s: State, p: nat, a: Action)
    requires OwnStep(s, p, a) && RoleOK(s, p) && StageOK(s, p) && s.calls[p].stage.Fetching?
    requires var key := RequestKey(s.calls[p].call); key in s.requests ==> RequestOK(s, key)
    ensures Proceeds(s, p, a, Step(s, a))
  {
  }

  lemma CreateProceeds(s: State, p: nat, a: Action)
    requires OwnStep(s, p, a) && s.calls[p].stage.Creating?
    ensures Proceeds(s, p, a, Step(s, a))
  {
    assert Step(s, a) == CreateStep(s, p, a.freshID);
    assert !Waits(s, p, a) ==> Step(s, a).calls[p].stage == Starting(NewRun(a.freshID));
  }

  lemma RunProceeds(s: State, p: nat, a: Action)
    requires OwnStep(s, p, a) && StageOK(s, p)
    requires var stage := s.calls[p].stage; stage.Starting? || stage.Executing? || stage.Finishing? || stage.Recording?
    ensures Proceeds(s, p, a, Step(s, a))
  {
    match s.calls[p].stage
    case Starting(run) => StoreProceeds(s, p, a, run.(status := Running), Executing(run.(status := Running)));
    case Executing(run) => assert Step(s, a) == Move(s, p, Finishing(Finished(run, a.outcome)));
    case Finishing(run) =>
      var next := if s.calls[p].call.token != "" then Binding(run) else AfterRun(s.calls[p].call, run);
      StoreProceeds(s, p, a, run, next);
    case Recording(run, next) => assert Step(s, a) == RecordStep(s, p, run, next, a.saved);
  }

  lemma StoreProceeds(s: State, p: nat, a: Action, run: Run, next: Stage)
    requires OwnStep(s, p, a) && FindRun(s.runs, s.calls[p].call.scope, run.id).Some?
    requires s.calls[p].stage.Starting? || s.calls[p].stage.Finishing?
    requires Step(s, a) == UpdateStep(s, p, run, next)
    requires next != Rejected && !next.Waiting? && Left(next) < Left(s.calls[p].stage)
    ensures Proceeds(s, p, a, Step(s, a))
  {
  }

  lemma CloseProceeds(s: State, p: nat, a: Action)
    requires OwnStep(s, p, a) && RoleOK(s, p) && StageOK(s, p)
    requires var stage := s.calls[p].stage; stage.Binding? || stage.Closing? || stage.JoinClosing?
    ensures Proceeds(s, p, a, Step(s, a))
  {
    assert RequestKey(s.calls[p].call) in s.requests;
    match s.calls[p].stage
    case JoinClosing(run) => assert Step(s, a) == CloseStep(s, p, run, Accepted(run));
    case Binding(run) => assert Step(s, a) == BindStep(s, p, run);
    case Closing(run) => assert Step(s, a) == CloseStep(s, p, run, AfterRun(s.calls[p].call, run));
  }

  /** No other call's step touches the call. */
  lemma OthersKeep(s: State, p: nat, a: Action)
    requires Inv(s) && p < |s.calls| && (a.Arrive? || a.caller != p)
    ensures p < |Step(s, a).calls| && Step(s, a).calls[p] == s.calls[p]
  {
    if a.Advance? && a.caller < |s.calls| {
      match s.calls[a.caller].stage
      case Recording(run, next) => assert Step(s, a) == RecordStep(s, a.caller, run, next, a.saved);
      case _ => QuietStep(s, a);
    }
  }

  /** What any step does to a call. */
  ghost predicate Goes(s: State, p: nat, a: Action, t: State)
    requires p < |s.calls|
  {
    if OwnStep(s, p, a) then Proceeds(s, p, a, t)
    else
      && p < |t.calls| && t.calls[p].call == s.calls[p].call
      && if a == Abort(p) then t.calls[p].stage == (if s.calls[p].stage.Accepted? then s.calls[p].stage else Rejected)
         else t.calls[p] == s.calls[p]
  }

  lemma StepGoes(s: State, p: nat, a: Action)
    requires Inv(s) && Sighted(s) && p < |s.calls|
    ensures Goes(s, p, a, Step(s, a))
  {
    if OwnStep(s, p, a) {
      OwnProceeds(s, p, a);
    } else if a.Arrive? || a.caller != p {
      OthersKeep(s, p, a);
    }
  }

  lemma StepSighted(s: State, a: Action)
    requires Inv(s) && Sighted(s)
    ensures Sighted(Step(s, a))
  {
    var t := Step(s, a);
    forall p | 0 <= p < |t.calls| && t.calls[p].stage.Waiting? ensures !Blank(t.calls[p].stage.runID) {
      if p < |s.calls| {
        StepGoes(s, p, a);
      } else {
        Arrives(s, p, a);
      }
    }
  }

  lemma Arrives(s: State, p: nat, a: Action)
    requires Inv(s) && |s.calls| <= p < |Step(s, a).calls|
    ensures Step(s, a).calls[p].stage == Reserving
  {
    if a.Advance? && a.caller < |s.calls| && !s.calls[a.caller].stage.Recording? {
      QuietStep(s, a);
    }
  }

  // ---- whole runs ----

  predicate EverAborted(actions: seq<Action>, p: nat) {
    actions != [] &&
    var front, last := actions[..|actions| - 1], actions[|actions| - 1];
    var s := Exec(Init(), front);
    EverAborted(front, p) || (last == Abort(p) && p < |s.calls| && !s.calls[p].stage.Accepted?)
  }

  predicate EverMisses(actions: seq<Action>, p: nat) {
    actions != [] &&
    var front, last := actions[..|actions| - 1], actions[|actions| - 1];
    EverMisses(front, p) || Misses(Exec(Init(), front), p, last)
  }

  predicate EverConflicts(actions: seq<Action>, p: nat) {
    actions != [] &&
    var front, last := actions[..|actions| - 1], actions[|actions| - 1];
    EverConflicts(front, p) || Conflicts(Exec(Init(), front), p, last)
  }

  lemma {:induction false} ExecSnoc(s: State, actions: seq<Action>)
    requires actions != []
    ensures Exec(s, actions) == Step(Exec(s, actions[..|actions| - 1]), actions[|actions| - 1])
    decreases |actions|
  {
    if |actions| > 1 {
      assert actions[..|actions| - 1][1..] == actions[1..][..|actions| - 2];
      ExecSnoc(Step(s, actions[0]), actions[1..]);
    }
  }

  lemma {:induction false} SightedAlways(actions: seq<Action>)
    ensures Inv(Exec(Init(), actions)) && Sighted(Exec(Init(), actions))
    decreases |actions|
  {
    Reachable(actions);
    if actions != [] {
      SightedAlways(actions[..|actions| - 1]);
      ExecSnoc(Init(), actions);
      StepSighted(Exec(Init(), actions[..|actions| - 1]), actions[|actions| - 1]);
    }
  }

  /** In every run a submission has been rejected exactly if it was given up, or its token is held by another
      submission, or the run it looked for is in a scope whose request key collides with its own. Nothing else
      goes wrong: whatever else it looks up in the store is there. */
  lemma {:induction false} RejectedIff(actions: seq<Action>, p: nat)
    ensures var s := Exec(Init(), actions);
      p < |s.calls| && s.calls[p].stage.Rejected? <==>
      EverAborted(actions, p) || EverConflicts(actions, p) || EverMisses(actions, p)
    decreases |actions|
  {
    if actions != [] {
      var front, last := actions[..|actions| - 1], actions[|actions| - 1];
      RejectedIff(front, p);
      ExecSnoc(Init(), actions);
      SightedAlways(front);
      RejectedNext(Exec(Init(), front), p, last);
    }
  }

  lemma RejectedNext(s: State, p: nat, a: Action)
    requires Inv(s) && Sighted(s)
    ensures var t := Step(s, a);
      p < |t.calls| && t.calls[p].stage.Rejected? <==>
      || (p < |s.calls| && s.calls[p].stage.Rejected?)
      || (a == Abort(p) && p < |s.calls| && !s.calls[p].stage.Accepted?)
      || Conflicts(s, p, a) || Misses(s, p, a)
  {
    if p < |s.calls| {
      StepGoes(s, p, a);
    } else if p < |Step(s, a).calls| {
      Arrives(s, p, a);
    }
  }

  /** The call is neither given up nor in conflict or astray, and never waits at a step of its own. */
  ghost predicate Unhindered(s: State, p: nat, actions: seq<Action>)
    decreases |actions|
  {
    actions != [] ==>
      && actions[0] != Abort(p)
      && !Conflicts(s, p, actions[0]) && !Misses(s, p, actions[0]) && !Waits(s, p, actions[0])
      && Unhindered(Step(s, actions[0]), p, actions[1..])
  }

  function Turns(actions: seq<Action>, p: nat): nat {
    if actions == [] then 0
    else (if actions[0].Advance? && actions[0].caller == p then 1 else 0) + Turns(actions[1..], p)
  }

  /** A submission ends: unless it is given up, in conflict or has to wait, it is accepted after at most twelve
      steps of its own, whatever the others do in between. */
  lemma {:induction false} Accepts(s: State, p: nat, actions: seq<Action>)
    requires Inv(s) && Sighted(s) && p < |s.calls| && !s.calls[p].stage.Rejected?
    requires Unhindered(s, p, actions) && Turns(actions, p) >= Left(s.calls[p].stage)
    ensures p < |Exec(s, actions).calls| && Exec(s, actions).calls[p].stage.Accepted?
    decreases |actions|
  {
    if actions != [] {
      var a := actions[0];
      StepInv(s, a);
      StepSighted(s, a);
      StepGoes(s, p, a);
      Accepts(Step(s, a), p, actions[1..]);
    }
  }
}
