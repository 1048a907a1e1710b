/** When a versioned refresh commits, when it starts over, and when it fails. */
module ProfileRetry {
  import opened Options
  import opened ProfileStore
  import opened ProfileRefresh
  import opened Text

  // ---- what a refresh names ----

  /** The refresh is for a graded attempt or a finished interview. */
  predicate ForCompletion(r: Request) {
    r.Refresh? && !(Blank(r.submissionID) && Blank(r.problemID) && Blank(r.threadID))
  }

  /** An attempt lacks one of its three identifiers, or an interview its session. */
  predicate Incomplete(r: Request) {
    && ForCompletion(r)
    && if Blank(r.submissionID) && Blank(r.problemID) then Blank(r.sessionID)
       else Blank(r.sessionID) || Blank(r.submissionID) || Blank(r.problemID)
  }

  /** The marker would not say where it comes from. */
  predicate Unsourced(r: Request, event: string) {
    ForCompletion(r) && (Blank(r.refreshID) || Blank(event))
  }

  lemma Names(r: Request)
    ensures ForCompletion(r) <==> HasCompletion(r)
    ensures HasCompletion(r) ==> (Incomplete(r) <==> !Complete(r))
  {
    if r.Refresh? {
      BlankTrims(r.submissionID);
      BlankTrims(r.problemID);
      BlankTrims(r.threadID);
      BlankTrims(r.sessionID);
    }
  }

  lemma Stamps(r: Request, event: string, expected: int)
    requires HasCompletion(r)
    ensures Stamped(CompletionOf(r, event), expected) == None <==> Incomplete(r) || Unsourced(r, event)
  {
    Names(r);
    BlankTrims(r.submissionID);
    BlankTrims(r.problemID);
    BlankTrims(r.threadID);
    BlankTrims(r.sessionID);
    BlankTrims(r.refreshID);
    BlankTrims(event);
    assert Trim("") == "";
  }

  /** A commit has already marked the completion. */
  predicate Done(s: State, r: Request) {
    HasCompletion(r) && Processed(s.completions, MarkerKey(r))
  }

  // ---- one commit ----

  predicate Commits(s: State, p: nat, a: Action) {
    && a.Advance? && a.caller == p && p < |s.calls|
    && s.calls[p].stage.Committing? && s.calls[p].request.Refresh?
  }

  /** The commit cannot name the completion it would mark. */
  predicate Unmarkable(r: Request, a: Action)
    requires a.Advance?
  {
    Incomplete(r) || Unsourced(r, a.sourceEventID)
  }

  /** The commit comes too late: the version of the profile moved since its call read it. */
  predicate Loses(s: State, p: nat, a: Action) {
    && Commits(s, p, a) && !Unmarkable(s.calls[p].request, a) && !Done(s, s.calls[p].request)
    && Version(Current(s, s.calls[p].request.scope)) != Version(s.calls[p].stage.seen.profile)
  }

  predicate Wins(s: State, p: nat, a: Action) {
    && Commits(s, p, a) && !Unmarkable(s.calls[p].request, a) && !Done(s, s.calls[p].request)
    && Version(Current(s, s.calls[p].request.scope)) == Version(s.calls[p].stage.seen.profile)
  }

  /** The call's one write: it replaced the profile then stored by one computed from what the call read. */
  ghost predicate Writes(s: State, t: State, p: nat)
    requires p < |s.calls| && s.calls[p].stage.Committing?
  {
    var r, seen := s.calls[p].request, s.calls[p].stage.seen;
    var next := Profile(Version(Current(s, r.scope)) + 1, Lineage(seen.profile) + [|s.writes|]);
    && t.profiles == s.profiles[r.scope := next]
    && |t.writes| == |s.writes| + 1 && t.writes[..|s.writes|] == s.writes
    && var w := t.writes[|s.writes|];
    && w.scope == r.scope && w.before == Current(s, r.scope) && w.after == next
    && w.source != Put && w.source.caller == p && w.source.read == seen
    && if ForCompletion(r) then
         && HasCompletion(r) && MarkerKey(r) !in s.completions
         && t.completions.Keys == s.completions.Keys + {MarkerKey(r)}
         && t.completions == s.completions[MarkerKey(r) := t.completions[MarkerKey(r)]]
       else t.completions == s.completions
  }

  /** A commit writes, or is found done, or starts over after a first loss, or fails: after a second loss
      or because it cannot name its completion. It is never told that there is no profile. */
  ghost predicate Ends(s: State, p: nat, a: Action, t: State)
    requires Commits(s, p, a) && p < |t.calls|
  {
    var r, stage, next := s.calls[p].request, s.calls[p].stage, t.calls[p].stage;
    && (next == Applied <==> Wins(s, p, a))
    && (next == Skipped <==> !Unmarkable(r, a) && Done(s, r))
    && (next == Loading(2) <==> Loses(s, p, a) && stage.attempt == 1)
    && (next == Failed <==> Unmarkable(r, a) || (Loses(s, p, a) && stage.attempt == 2))
    && (Wins(s, p, a) ==> Writes(s, t, p))
    && (!Wins(s, p, a) ==> t == s.(calls := t.calls))
  }

  lemma CommitEnds(s: State, p: nat, a: Action)
    requires Inv(s) && Commits(s, p, a)
    ensures p < |Step(s, a).calls| && Ends(s, p, a, Step(s, a))
  {
    assert CallOK(s, p);
    if Wins(s, p, a) {
      WinWrites(s, p, a);
    } else if Loses(s, p, a) {
      LossMoves(s, p, a);
    } else {
      NamingMoves(s, p, a);
    }
  }

  lemma LossMoves(s: State, p: nat, a: Action)
    requires Loses(s, p, a) && CallOK(s, p)
    ensures Step(s, a) == Move(s, p, if s.calls[p].stage.attempt == 1 then Loading(2) else Failed)
  {
    var r, stage := s.calls[p].request, s.calls[p].stage;
    var next := Profile(Version(stage.seen.profile), Lineage(stage.seen.profile) + [|s.writes|]);
    Names(r);
    NeverMissing(s, r.scope, stage.seen);
    assert Replaced(s.profiles, r.scope, next, next.version) == Err(StaleProfile);
    if HasCompletion(r) {
      Stamps(r, a.sourceEventID, next.version);
      StampedKey(r, a.sourceEventID, next.version);
    }
  }

  lemma NamingMoves(s: State, p: nat, a: Action)
    requires Commits(s, p, a) && (Unmarkable(s.calls[p].request, a) || Done(s, s.calls[p].request))
    ensures Step(s, a) == Move(s, p, if Unmarkable(s.calls[p].request, a) then Failed else Skipped)
  {
    var r, seen := s.calls[p].request, s.calls[p].stage.seen;
    Names(r);
    Stamps(r, a.sourceEventID, Version(seen.profile));
    StampedKey(r, a.sourceEventID, Version(seen.profile));
  }

  lemma WinWrites(s: State, p: nat, a: Action)
    requires Wins(s, p, a)
    ensures Writes(s, Step(s, a), p) && Step(s, a).calls == s.calls[p := s.calls[p].(stage := Applied)]
  {
    var r, seen := s.calls[p].request, s.calls[p].stage.seen;
    var next := Profile(Version(seen.profile), Lineage(seen.profile) + [|s.writes|]);
    Names(r);
    assert Replaced(s.profiles, r.scope, next, next.version)
      == Ok(s.profiles[r.scope := next.(version := next.version + 1)]);
    if HasCompletion(r) {
      Stamps(r, a.sourceEventID, next.version);
      StampedKey(r, a.sourceEventID, next.version);
    }
  }

  /** What the marker of a completion says. */
  predicate Tells(c: Completion, r: Request, event: string, version: int)
    requires r.Refresh?
  {
    && c.sessionID == Trim(r.sessionID) && c.refreshID == Trim(r.refreshID)
    && c.sourceEventID == Trim(event) && c.profileVersion == version
    && if Blank(r.submissionID) && Blank(r.problemID)
       then c.threadID == Trim(r.threadID) && c.problemID == "" && c.submissionID == ""
       else c.threadID == "" && c.problemID == Trim(r.problemID) && c.submissionID == Trim(r.submissionID)
  }

  /** The write of a completion's refresh sets its marker, which names the identifiers and the version that
      the write stored. */
  lemma WinMarks(s: State, p: nat, a: Action)
    requires Wins(s, p, a) && ForCompletion(s.calls[p].request)
    ensures HasCompletion(s.calls[p].request) && MarkerKey(s.calls[p].request) in Step(s, a).completions
    ensures var r, t := s.calls[p].request, Step(s, a);
      && |t.writes| > |s.writes|
      && Tells(t.completions[MarkerKey(r)], r, a.sourceEventID, t.writes[|s.writes|].after.version)
  {
    var r, expected := s.calls[p].request, Version(s.calls[p].stage.seen.profile);
    WinWrites(s, p, a);
    Names(r);
    Stamps(r, a.sourceEventID, expected);
    StampedKey(r, a.sourceEventID, expected);
    BlankTrims(r.submissionID);
    BlankTrims(r.problemID);
    assert Trim("") == "";
    var c := Stamped(CompletionOf(r, a.sourceEventID), expected).value;
    assert Step(s, a).completions == s.completions[KeyOf(r.scope, c) := c];
  }

  /** What the check decides, between the read and the commit: a refresh for an incomplete completion fails,
      one whose completion is marked already, or that has nothing new to say, leaves everything as it is. */
  lemma CheckEnds(s: State, p: nat, a: Action)
    requires p < |s.calls| && s.calls[p].stage.Checking? && a.Advance? && a.caller == p
    ensures var r, stage := s.calls[p].request, s.calls[p].stage;
      Step(s, a) == Move(s, p,
        if Incomplete(r) then Failed
        else if Done(s, r) || !a.proceed then Skipped
        else Committing(stage.attempt, stage.seen))
  {
    Names(s.calls[p].request);
  }

  /** A profile that was read stays stored. */
  lemma NeverMissing(s: State, scope: string, seen: Snapshot)
    requires SnapOK(s, scope, seen)
    ensures scope !in s.profiles ==> Version(seen.profile) == 0
  {
  }

  /** A version moves only by writes of others. */
  lemma LossMeansWritten(s: State, p: nat, a: Action) returns (i: nat)
    requires Inv(s) && Loses(s, p, a)
    ensures s.calls[p].stage.seen.readAt <= i < |s.writes| && s.writes[i].scope == s.calls[p].request.scope
    ensures s.writes[i].source == Put || s.writes[i].source.caller != p
  {
    assert CallOK(s, p);
    var scope, seen := s.calls[p].request.scope, s.calls[p].stage.seen;
    assert !Untouched(s, scope, seen.readAt);
    i :| seen.readAt <= i < |s.writes| && s.writes[i].scope == scope;
    assert SourceOK(s, i);
  }

  // ---- whole runs ----

  /** The numbers of the actions at which the call lost its race. */
  function LossesOf(actions: seq<Action>, p: nat): seq<nat> {
    if actions == [] then [] else
    var front, last := actions[..|actions| - 1], actions[|actions| - 1];
    LossesOf(front, p) + if Loses(Exec(Init(), front), p, last) then [|front|] else []
  }

  /** The call was turned away for its identity: when it was checked, or at its commit. */
  predicate TurnsAway(s: State, p: nat, a: Action) {
    && a.Advance? && a.caller == p && p < |s.calls|
    && ((s.calls[p].stage.Checking? && Incomplete(s.calls[p].request))
        || (Commits(s, p, a) && Unmarkable(s.calls[p].request, a)))
  }

  predicate EverTurnedAway(actions: seq<Action>, p: nat) {
    actions != [] &&
    var front, last := actions[..|actions| - 1], actions[|actions| - 1];
    EverTurnedAway(front, p) || TurnsAway(Exec(Init(), front), p, last)
  }

  predicate EverAborted(actions: seq<Action>, p: nat) {
    actions != [] &&
    var front, last := actions[..|actions| - 1], actions[|actions| - 1];
    EverAborted(front, p) || (IsRunning(Exec(Init(), front), p) && last == Abort(p))
  }

  /** How a call stands after a run. */
  ghost predicate Stands(actions: seq<Action>, p: nat) {
    var s, losses := Exec(Init(), actions), LossesOf(actions, p);
    if p >= |s.calls| then losses == [] && !EverAborted(actions, p) && !EverTurnedAway(actions, p)
    else
      var over := EverAborted(actions, p) || EverTurnedAway(actions, p) || |losses| == 2;
      && |losses| <= 2
      && (s.calls[p].stage == Failed <==> over)
      && (IsRunning(s, p) ==> Attempt(s, p) == 1 + |losses|)
      && (s.calls[p].request.Unguarded? ==> losses == [])
  }

  function Attempt(s: State, p: nat): nat
    requires IsRunning(s, p)
  {
    s.calls[p].stage.attempt
  }

  lemma {:induction false} StandsAlways(actions: seq<Action>, p: nat)
    ensures Inv(Exec(Init(), actions)) && Stands(actions, p)
    decreases |actions|
  {
    ExecInv(Init(), actions);
    if actions != [] {
      var front, last := actions[..|actions| - 1], actions[|actions| - 1];
      StandsAlways(front, p);
      ExecSnoc(Init(), actions);
      if p < |Exec(Init(), front).calls| {
        StandsNext(Exec(Init(), front), p, last);
      } else {
        Arrives(Exec(Init(), front), p, last);
      }
    }
  }

  lemma Arrives(s: State, p: nat, a: Action)
    requires p >= |s.calls|
    ensures p < |Step(s, a).calls| ==> Step(s, a).calls[p].stage == Loading(1)
  {
    if a.Advance? && a.caller < |s.calls| && s.calls[a.caller].stage.Committing? {
      CommitShape(s, a.caller, s.calls[a.caller].stage.attempt, s.calls[a.caller].stage.seen, a.sourceEventID);
    }
  }

  /** What one step adds to how a call stands. */
  ghost predicate StandsOn(s: State, p: nat, a: Action, t: State)
    requires p < |s.calls|
  {
    && p < |t.calls| && t.calls[p].request == s.calls[p].request
    && if IsRunning(s, p) && a == Abort(p) then t.calls[p].stage == Failed
       else if TurnsAway(s, p, a) then t.calls[p].stage == Failed
       else if Loses(s, p, a) then t.calls[p].stage == (if Attempt(s, p) == 1 then Loading(2) else Failed)
       else
         && (t.calls[p].stage == Failed <==> s.calls[p].stage == Failed)
         && (IsRunning(t, p) ==> IsRunning(s, p) && Attempt(t, p) == Attempt(s, p))
  }

  lemma StandsNext(s: State, p: nat, a: Action)
    requires p < |s.calls| && CallOK(s, p)
    ensures StandsOn(s, p, a, Step(s, a))
  {
    if Commits(s, p, a) {
      CommitStands(s, p, a);
    } else if a == Abort(p) || (a.Advance? && a.caller == p) {
      OwnStands(s, p, a);
    } else {
      OthersKeep(s, p, a);
    }
  }

  lemma CommitStands(s: State, p: nat, a: Action)
    requires Commits(s, p, a) && CallOK(s, p)
    ensures StandsOn(s, p, a, Step(s, a))
  {
    if Wins(s, p, a) {
      WinWrites(s, p, a);
    } else if Loses(s, p, a) {
      LossMoves(s, p, a);
    } else {
      NamingMoves(s, p, a);
    }
  }

  lemma OwnStands(s: State, p: nat, a: Action)
    requires p < |s.calls| && !Commits(s, p, a) && (a == Abort(p) || (a.Advance? && a.caller == p))
    ensures StandsOn(s, p, a, Step(s, a))
  {
    Names(s.calls[p].request);
    assert s.calls[p].request.Unguarded? ==> !HasCompletion(s.calls[p].request);
  }

  /** A step of another call leaves this one alone. */
  lemma OthersKeep(s: State, p: nat, a: Action)
    requires p < |s.calls| && (a.Advance? || a.Abort? ==> a.caller != p)
    ensures p < |Step(s, a).calls| && Step(s, a).calls[p] == s.calls[p]
  {
    if a.Advance? && a.caller < |s.calls| && s.calls[a.caller].stage.Committing? {
      CommitShape(s, a.caller, s.calls[a.caller].stage.attempt, s.calls[a.caller].stage.seen, a.sourceEventID);
    }
  }

  /** In every run a refresh has failed exactly when it was ended with an error of its own, or its identity
      was incomplete, or it lost the race for its profile twice. A lost race starts it over, once. */
  lemma FailsIff(actions: seq<Action>, p: nat)
    requires p < |Exec(Init(), actions).calls|
    ensures var s := Exec(Init(), actions);
      && (s.calls[p].stage == Failed <==>
            EverAborted(actions, p) || EverTurnedAway(actions, p) || |LossesOf(actions, p)| == 2)
      && |LossesOf(actions, p)| <= 2
      && (IsRunning(s, p) ==> Attempt(s, p) == 1 + |LossesOf(actions, p)|)
  {
    StandsAlways(actions, p);
  }

  /** The call wrote, and did so once. */
  ghost predicate WroteOnce(t: State, p: nat) {
    exists i :: 0 <= i < |t.writes| && IsOnlyWrite(t, i, p)
  }

  ghost predicate IsOnlyWrite(t: State, i: nat, p: nat)
    requires i < |t.writes|
  {
    && t.writes[i].source != Put && t.writes[i].source.caller == p
    && forall j :: 0 <= j < |t.writes| && j != i ==> t.writes[j].source == Put || t.writes[j].source.caller != p
  }

  ghost predicate WroteNever(t: State, p: nat) {
    forall i :: 0 <= i < |t.writes| ==> t.writes[i].source == Put || t.writes[i].source.caller != p
  }

  /** In every run a call is told that it applied exactly if it wrote the profile, which it then did once. */
  lemma {:induction false} AppliedIffWrote(actions: seq<Action>, p: nat)
    requires p < |Exec(Init(), actions).calls|
    ensures var t := Exec(Init(), actions);
      if t.calls[p].stage == Applied then WroteOnce(t, p) else WroteNever(t, p)
    decreases |actions|
  {
    var front, last := actions[..|actions| - 1], actions[|actions| - 1];
    var s, t := Exec(Init(), front), Exec(Init(), actions);
    ExecSnoc(Init(), actions);
    ExecInv(Init(), front);
    ExecInv(Init(), actions);
    if t.calls[p].stage == Applied {
      if p < |s.calls| && s.calls[p].stage == Applied {
        AppliedIffWrote(front, p);
        var i :| 0 <= i < |s.writes| && IsOnlyWrite(s, i, p);
        StepWrites(s, last);
        assert t.writes[i] == s.writes[i] && SourceOK(t, i);
        assert IsOnlyWrite(t, i, p);
      } else {
        AppliedNow(s, p, last);
        assert SourceOK(t, |s.writes|);
        assert IsOnlyWrite(t, |s.writes|, p);
      }
    } else {
      forall i | 0 <= i < |t.writes| ensures t.writes[i].source == Put || t.writes[i].source.caller != p {
        assert SourceOK(t, i);
      }
    }
  }

  /** Only a write makes a call end Applied. */
  lemma AppliedNow(s: State, p: nat, a: Action)
    requires Inv(s) && (p < |s.calls| ==> s.calls[p].stage != Applied)
    requires p < |Step(s, a).calls| && Step(s, a).calls[p].stage == Applied
    ensures var t := Step(s, a);
      |t.writes| == |s.writes| + 1 && t.writes[|s.writes|].source != Put && t.writes[|s.writes|].source.caller == p
  {
    if p >= |s.calls| {
      Arrives(s, p, a);
    } else if a.Advance? && a.caller == p {
      if s.calls[p].stage.Checking? {
        CheckEnds(s, p, a);
      } else if Commits(s, p, a) {
        CommitEnds(s, p, a);
      }
    } else if a != Abort(p) {
      OthersKeep(s, p, a);
    }
  }

  // ---- each attempt reads anew ----

  /** The call has read its profile and not committed yet. */
  predicate Reading(t: State, p: nat) {
    p < |t.calls| && (t.calls[p].stage.Checking? || t.calls[p].stage.Committing?)
  }

  /** Action l read the profile that the call works on. */
  ghost predicate LoadedAt(actions: seq<Action>, p: nat, l: nat) {
    var t := Exec(Init(), actions);
    && l < |actions| && Reading(t, p)
    && var s := Exec(Init(), actions[..l]);
    && p < |s.calls| && s.calls[p].stage == Loading(Attempt(t, p)) && s.calls[p].request == t.calls[p].request
    && actions[l].Advance? && actions[l].caller == p
    && t.calls[p].stage.seen == Snapshot(Current(s, t.calls[p].request.scope), |s.writes|)
  }

  /** A call past its load works on the profile that was stored after its last loss. */
  lemma {:induction false} Reads(actions: seq<Action>, p: nat) returns (l: nat)
    requires Reading(Exec(Init(), actions), p)
    ensures LoadedAt(actions, p, l)
    ensures forall j :: j in LossesOf(actions, p) ==> j < l
    decreases |actions|
  {
    var front, last := actions[..|actions| - 1], actions[|actions| - 1];
    var s := Exec(Init(), front);
    ExecSnoc(Init(), actions);
    ExecInv(Init(), front);
    if p >= |s.calls| {
      Arrives(s, p, last);
    } else {
      ReadStep(s, p, last);
      if s.calls[p].stage.Loading? {
        l := |front|;
        LossesBefore(front, p);
        assert actions[..l] == front;
      } else {
        l := Reads(front, p);
        assert actions[..l] == front[..l];
      }
    }
  }

  /** Only a load leads to a check, and what it read stays as it is. */
  ghost predicate ReadsOn(s: State, p: nat, a: Action, t: State)
    requires p < |s.calls| && p < |t.calls|
  {
    && t.calls[p].request == s.calls[p].request && IsRunning(s, p) && IsRunning(t, p)
    && Attempt(s, p) == Attempt(t, p) && !Loses(s, p, a) && !t.calls[p].stage.Loading?
    && if s.calls[p].stage.Loading? then
         && a.Advance? && a.caller == p
         && t.calls[p].stage.seen == Snapshot(Current(s, s.calls[p].request.scope), |s.writes|)
       else t.calls[p].stage.seen == s.calls[p].stage.seen
  }

  lemma ReadStep(s: State, p: nat, a: Action)
    requires p < |s.calls| && CallOK(s, p) && Reading(Step(s, a), p)
    ensures ReadsOn(s, p, a, Step(s, a))
  {
    if a.Advance? && a.caller == p {
      if s.calls[p].stage.Committing? { EndsCommit(s, p, a); } else { ReadsNext(s, p, a); }
    } else {
      OthersRead(s, p, a);
    }
  }

  lemma OthersRead(s: State, p: nat, a: Action)
    requires p < |s.calls| && !(a.Advance? && a.caller == p) && Reading(Step(s, a), p)
    ensures ReadsOn(s, p, a, Step(s, a))
  {
    if a != Abort(p) {
      OthersKeep(s, p, a);
    }
  }

  lemma ReadsNext(s: State, p: nat, a: Action)
    requires p < |s.calls| && !s.calls[p].stage.Committing? && a.Advance? && a.caller == p
    requires Reading(Step(s, a), p)
    ensures ReadsOn(s, p, a, Step(s, a))
  {
  }

  /** A commit leads neither to a check nor to another commit. */
  lemma EndsCommit(s: State, p: nat, a: Action)
    requires p < |s.calls| && CallOK(s, p) && s.calls[p].stage.Committing? && a.Advance? && a.caller == p
    ensures !Reading(Step(s, a), p)
  {
    if s.calls[p].request.Unguarded? {
      assert Step(s, a).calls[p].stage == Applied;
    } else if Wins(s, p, a) {
      WinWrites(s, p, a);
    } else if Loses(s, p, a) {
      LossMoves(s, p, a);
    } else {
      NamingMoves(s, p, a);
    }
  }

  lemma {:induction false} LossesBefore(actions: seq<Action>, p: nat)
    ensures forall j :: j in LossesOf(actions, p) ==> j < |actions|
    decreases |actions|
  {
    if actions != [] {
      LossesBefore(actions[..|actions| - 1], p);
    }
  }

  /** Somebody else wrote the scope after action l read it for the call. */
  ghost predicate Overtaken(actions: seq<Action>, p: nat, l: nat, i: nat) {
    && LoadedAt(actions, p, l) && p < |Exec(Init(), actions).calls|
    && var s := Exec(Init(), actions);
    && |Exec(Init(), actions[..l]).writes| <= i < |s.writes| && s.writes[i].scope == s.calls[p].request.scope
    && (s.writes[i].source == Put || s.writes[i].source.caller != p)
  }

  /** Every loss of a call comes from a write of others within that attempt. */
  lemma {:induction false} LossesAreOvertaken(actions: seq<Action>, p: nat, k: nat)
    requires k in LossesOf(actions, p)
    ensures k < |actions| && exists l, i :: Overtaken(actions[..k], p, l, i) && OnlyBefore(actions, p, k, l)
    decreases |actions|
  {
    var front, last := actions[..|actions| - 1], actions[|actions| - 1];
    LossesBefore(front, p);
    if k < |front| {
      LossesAreOvertaken(front, p, k);
      assert front[..k] == actions[..k];
      var l, i :| Overtaken(front[..k], p, l, i) && OnlyBefore(front, p, k, l);
      assert OnlyBefore(actions, p, k, l);
    } else {
      ExecInv(Init(), front);
      var l := Reads(front, p);
      var i := LossMeansWritten(Exec(Init(), front), p, last);
      assert actions[..k] == front;
      assert Overtaken(actions[..k], p, l, i) && OnlyBefore(actions, p, k, l);
    }
  }

  /** The losses before loss k all came before action l. */
  predicate OnlyBefore(actions: seq<Action>, p: nat, k: nat, l: nat) {
    forall j :: j in LossesOf(actions, p) && j < k ==> j < l
  }

  // ---- an attempt that is left alone applies ----

  /** The step gives the call what it needs, or leaves its profile and its completion alone. */
  ghost predicate Harmless(s: State, p: nat, a: Action)
    requires p < |s.calls|
  {
    var t, r := Step(s, a), s.calls[p].request;
    if a.Advance? && a.caller == p then a.proceed && !Blank(a.sourceEventID)
    else
      && a != Abort(p)
      && (forall i :: |s.writes| <= i < |t.writes| ==> t.writes[i].scope != r.scope)
      && (Done(t, r) ==> Done(s, r))
  }

  /** Nothing else writes the scope, or marks the completion, while the call runs. */
  ghost predicate LeftAlone(s: State, p: nat, actions: seq<Action>)
    requires p < |s.calls|
    decreases |actions|
  {
    actions != [] && IsRunning(s, p) ==>
      && Harmless(s, p, actions[0])
      && p < |Step(s, actions[0]).calls| && LeftAlone(Step(s, actions[0]), p, actions[1..])
  }

  function Turns(actions: seq<Action>, p: nat): nat {
    if actions == [] then 0
    else (if actions[0].Advance? && actions[0].caller == p then 1 else 0) + Turns(actions[1..], p)
  }

  /** The steps a running call still needs: load, check, commit. */
  function Needed(stage: Stage): nat {
    match stage
    case Loading(_) => 3
    case Checking(_, _) => 2
    case Committing(_, _) => 1
    case _ => 0
  }

  /** The call can still commit what it read, if it has read. */
  ghost predicate Fresh(s: State, p: nat)
    requires p < |s.calls|
  {
    var r := s.calls[p].request;
    && r.Refresh? && !Incomplete(r) && (ForCompletion(r) ==> !Blank(r.refreshID)) && !Done(s, r)
    && IsRunning(s, p)
    && (s.calls[p].stage.Loading? || Untouched(s, r.scope, s.calls[p].stage.seen.readAt))
  }

  /** The call's one write among all those of the run, which replaced this profile. */
  ghost predicate AppliedTo(t: State, p: nat, before: Option<Profile>, since: nat) {
    && p < |t.calls| && t.calls[p].stage == Applied
    && exists i :: since <= i < |t.writes| && WroteTo(t, i, p, before)
  }

  ghost predicate WroteTo(t: State, i: nat, p: nat, before: Option<Profile>)
    requires i < |t.writes| && p < |t.calls|
  {
    var w := t.writes[i];
    && w.scope == t.calls[p].request.scope && w.source != Put && w.source.caller == p
    && w.before == before && w.after == Profile(Version(before) + 1, Lineage(before) + [i])
    && (w.source.Marked? <==> ForCompletion(t.calls[p].request))
    && (forall j :: 0 <= j < |t.writes| && j != i ==> t.writes[j].source == Put || t.writes[j].source.caller != p)
  }

  lemma WinApplies(s: State, p: nat, a: Action, rest: seq<Action>)
    requires Inv(s) && Wins(s, p, a) && Untouched(s, s.calls[p].request.scope, s.calls[p].stage.seen.readAt)
    ensures AppliedTo(Exec(Step(s, a), rest), p, Current(s, s.calls[p].request.scope), |s.writes|)
  {
    var t, i := Step(s, a), |s.writes|;
    var u := Exec(t, rest);
    assert CallOK(s, p);
    WinWrites(s, p, a);
    StepInv(s, a);
    ExecExtends(t, rest);
    ExecInv(t, rest);
    assert u.writes[i] == u.writes[..|t.writes|][i] == t.writes[i];
    assert SourceOK(u, i);
    Names(s.calls[p].request);
    assert WroteTo(u, i, p, Current(s, s.calls[p].request.scope));
  }

  /** Steps that are not its own leave a fresh call fresh. */
  lemma OthersFresh(s: State, p: nat, a: Action)
    requires p < |s.calls| && Fresh(s, p) && Harmless(s, p, a) && !(a.Advance? && a.caller == p)
    ensures var t := Step(s, a);
      && |s.calls| <= |t.calls| && t.calls[p] == s.calls[p] && Fresh(t, p) && |s.writes| <= |t.writes|
      && Current(t, s.calls[p].request.scope) == Current(s, s.calls[p].request.scope)
  {
    var t, scope := Step(s, a), s.calls[p].request.scope;
    OthersKeep(s, p, a);
    if a.Advance? && a.caller < |s.calls| && s.calls[a.caller].stage.Committing? {
      CommitShape(s, a.caller, s.calls[a.caller].stage.attempt, s.calls[a.caller].stage.seen, a.sourceEventID);
    }
    assert t.writes[..|s.writes|] == s.writes;
    if |t.writes| > |s.writes| {
      assert t.writes[|s.writes|].scope != scope;
    }
    assert forall j :: 0 <= j < |s.writes| ==> t.writes[j] == s.writes[j];
  }

  /** Its own steps take it on, up to the commit. */
  lemma OwnFresh(s: State, p: nat, a: Action)
    requires p < |s.calls| && Fresh(s, p) && CallOK(s, p) && Harmless(s, p, a) && a.Advance? && a.caller == p
    requires !Wins(s, p, a)
    ensures var t := Step(s, a);
      && t == s.(calls := t.calls) && |s.calls| == |t.calls| && t.calls[p].request == s.calls[p].request
      && Fresh(t, p) && Needed(t.calls[p].stage) == Needed(s.calls[p].stage) - 1
  {
    Names(s.calls[p].request);
  }

  /** A refresh that is left alone for the three steps it needs ends Applied, by one write that replaced the
      profile it found. */
  lemma {:induction false} Undisturbed(s: State, p: nat, actions: seq<Action>)
    requires Inv(s) && p < |s.calls| && Fresh(s, p)
    requires LeftAlone(s, p, actions) && Turns(actions, p) >= Needed(s.calls[p].stage)
    ensures AppliedTo(Exec(s, actions), p, Current(s, s.calls[p].request.scope), |s.writes|)
    decreases |actions|
  {
    var a, rest := actions[0], actions[1..];
    var t := Step(s, a);
    StepInv(s, a);
    assert CallOK(s, p);
    if Wins(s, p, a) {
      WinApplies(s, p, a, rest);
    } else {
      if a.Advance? && a.caller == p { OwnFresh(s, p, a); } else { OthersFresh(s, p, a); }
      Undisturbed(t, p, rest);
    }
  }

  /** So a refresh whose first commit comes too late applies after all, once it is left alone: it starts over,
      and its one write replaces the profile that won. */
  lemma LoserApplies(s: State, p: nat, a: Action, actions: seq<Action>)
    requires Inv(s) && Loses(s, p, a) && s.calls[p].stage.attempt == 1
    requires p < |Step(s, a).calls| && LeftAlone(Step(s, a), p, actions) && Turns(actions, p) >= 3
    ensures Step(s, a).calls[p].stage == Loading(2)
    ensures AppliedTo(Exec(Step(s, a), actions), p, Current(s, s.calls[p].request.scope), |s.writes|)
  {
    var t := Step(s, a);
    CommitEnds(s, p, a);
    assert CallOK(s, p);
    LossMoves(s, p, a);
    StepInv(s, a);
    Undisturbed(t, p, actions);
  }
}
