/** Profile refreshes over one store: any number of concurrent versioned refreshes (each may carry a
    graded or interview completion and retries once when it loses the race), unguarded
    read-then-upsert writers, and whole-profile puts, interleaved one store operation at a time. */
module ProfileRefresh {
  import opened Options
  import opened ProfileStore
  import opened Text
  import Keys

  /** A refresh request. Unguarded stands for RefreshProfileFor and ReplaceNotes of the memory service:
      they read the profile and later upsert it without a version. The server wires neither of them in:
      its worker runs the versioned refresh. */
  datatype Request =
    | Refresh(
        scope: string, sessionID: string, problemID: string, submissionID: string, threadID: string, refreshID: string)
    | Unguarded(scope: string)

  /** What a caller read: the profile, or nothing, and how many writes had happened by then. */
  datatype Snapshot = Snapshot(profile: Option<Profile>, readAt: nat)

  datatype Stage =
    | Loading(attempt: nat)
    | Checking(attempt: nat, seen: Snapshot)
    | Committing(attempt: nat, seen: Snapshot)
    | Applied
    | Skipped
    | Failed

  datatype Call = Call(request: Request, stage: Stage)

  datatype Source = Put | Upsert(caller: nat, read: Snapshot) | Versioned(caller: nat, read: Snapshot)
                  | Marked(caller: nat, read: Snapshot, key: string)

  datatype Write = Write(scope: string, before: Option<Profile>, after: Profile, source: Source)

  /** The store, the calls, and two history variables: every profile write in order, and which write
      set each marker. */
  datatype State = State(
    profiles: Profiles, completions: Completions, calls: seq<Call>, writes: seq<Write>, markedBy: map<string, nat>)

  datatype Action =
    | Arrive(request: Request)
    /** `proceed` says that there was something to synthesize and the generated profile was valid; otherwise
        the refresh keeps the stored profile. `sourceEventID` identifies the evidence. */
    | Advance(caller: nat, proceed: bool, sourceEventID: string)
    /** Ends a running call with an error that is not the store's: a cancelled request, a failed read, or no
        evidence for the completion. */
    | Abort(caller: nat)
    | PutProfile(scope: string, version: int)

  function Init(): State {
    State(map[], map[], [], [], map[])
  }

  function Current(s: State, scope: string): Option<Profile> {
    Stored(s.profiles, scope)
  }

  /** A missing profile is presented to callers as a default profile of version 0. */
  function Version(p: Option<Profile>): int {
    if p.Some? then p.value.version else 0
  }

  function Lineage(p: Option<Profile>): seq<nat> {
    if p.Some? then p.value.lineage else []
  }

  /** A refresh is tied to a completion when it names a submission or problem (coding) or, failing
      that, a thread (interview). */
  predicate IsCoding(r: Request) {
    r.Refresh? && (Trim(r.submissionID) != "" || Trim(r.problemID) != "")
  }

  predicate IsInterview(r: Request) {
    r.Refresh? && !IsCoding(r) && Trim(r.threadID) != ""
  }

  predicate HasCompletion(r: Request) {
    IsCoding(r) || IsInterview(r)
  }

  predicate Complete(r: Request)
    requires HasCompletion(r)
  {
    Trim(r.sessionID) != "" && (IsCoding(r) ==> Trim(r.submissionID) != "" && Trim(r.problemID) != "")
  }

  function MarkerKey(r: Request): string
    requires HasCompletion(r)
  {
    if IsCoding(r) then CompletionKey(r.scope, Trim(r.sessionID), Trim(r.problemID), Trim(r.submissionID), "")
    else CompletionKey(r.scope, Trim(r.sessionID), "", "", Trim(r.threadID))
  }

  function CompletionOf(r: Request, sourceEventID: string): Completion
    requires HasCompletion(r)
  {
    if IsCoding(r) then Completion(r.sessionID, r.problemID, r.submissionID, "", sourceEventID, r.refreshID, 0)
    else Completion(r.sessionID, "", "", r.threadID, sourceEventID, r.refreshID, 0)
  }

  predicate IsRunning(s: State, p: nat) {
    p < |s.calls| && (s.calls[p].stage.Loading? || s.calls[p].stage.Checking? || s.calls[p].stage.Committing?)
  }

  function Move(s: State, p: nat, stage: Stage): State
    requires p < |s.calls|
  {
    s.(calls := s.calls[p := s.calls[p].(stage := stage)])
  }

  function Step(s: State, a: Action): State {
    match a
    case Arrive(request) => s.(calls := s.calls + [Call(request, Loading(1))])
    case PutProfile(scope, version) => Upserting(s, scope, Profile(version, [|s.writes|]), Put)
    case Abort(p) => if IsRunning(s, p) then Move(s, p, Failed) else s
    case Advance(p, proceed, event) =>
      if p >= |s.calls| then s else
      match s.calls[p].stage
      case Loading(attempt) => LoadStep(s, p, attempt)
      case Checking(attempt, seen) => CheckStep(s, p, attempt, seen, proceed)
      case Committing(attempt, seen) => CommitStep(s, p, attempt, seen, event)
      case _ => s
  }

  function LoadStep(s: State, p: nat, attempt: nat): State
    requires p < |s.calls|
  {
    var r := s.calls[p].request;
    var seen := Snapshot(Current(s, r.scope), |s.writes|);
    Move(s, p, if r.Unguarded? then Committing(attempt, seen) else Checking(attempt, seen))
  }

  function CheckStep(s: State, p: nat, attempt: nat, seen: Snapshot, proceed: bool): State
    requires p < |s.calls|
  {
    var r := s.calls[p].request;
    if HasCompletion(r) && !Complete(r) then Move(s, p, Failed)
    else if HasCompletion(r) && Processed(s.completions, MarkerKey(r)) then Move(s, p, Skipped)
    else if !proceed then Move(s, p, Skipped)
    else Move(s, p, Committing(attempt, seen))
  }

  function Upserting(s: State, scope: string, profile: Profile, source: Source): State {
    var profiles := Upserted(s.profiles, scope, profile);
    s.(profiles := profiles, writes := s.writes + [Write(scope, Current(s, scope), profiles[scope], source)])
  }

  function CommitStep(s: State, p: nat, attempt: nat, seen: Snapshot, event: string): State
    requires p < |s.calls|
  {
    var r, expected := s.calls[p].request, Version(seen.profile);
    var next := Profile(expected, Lineage(seen.profile) + [|s.writes|]);
    if r.Unguarded? then Move(Upserting(s, r.scope, next, Upsert(p, seen)), p, Applied)
    else if HasCompletion(r) then CommitMarked(s, p, attempt, seen, next, event)
    else
      match Replaced(s.profiles, r.scope, next, expected)
      case Err(e) => Lost(s, p, attempt, e)
      case Ok(profiles) =>
        Move(s.(profiles := profiles,
                writes := s.writes + [Write(r.scope, Current(s, r.scope), profiles[r.scope], Versioned(p, seen))]),
             p, Applied)
  }

  function CommitMarked(s: State, p: nat, attempt: nat, seen: Snapshot, next: Profile, event: string): State
    requires p < |s.calls| && HasCompletion(s.calls[p].request)
  {
    var r, expected := s.calls[p].request, Version(seen.profile);
    match Stamped(CompletionOf(r, event), expected)
    case None => Move(s, p, Failed)
    case Some(c) =>
      match ReplacedAndMarked(s.profiles, s.completions, r.scope, next, expected, c)
      case Err(e) => Lost(s, p, attempt, e)
      case Ok((profiles, completions)) =>
        var key := KeyOf(r.scope, c);
        Move(s.(profiles := profiles, completions := completions, markedBy := s.markedBy[key := |s.writes|],
                writes := s.writes + [Write(r.scope, Current(s, r.scope), profiles[r.scope], Marked(p, seen, key))]),
             p, Applied)
  }

  /** A stale refresh starts over once; a completion found processed is a success without a write. */
  function Lost(s: State, p: nat, attempt: nat, e: StoreError): State
    requires p < |s.calls|
  {
    match e
    case StaleProfile => Move(s, p, if attempt == 1 then Loading(2) else Failed)
    case CompletionAlreadyProcessed => Move(s, p, Skipped)
    case ProfileNotFound => Move(s, p, Failed)
  }

  function Exec(s: State, actions: seq<Action>): State
    decreases |actions|
  {
    if actions == [] then s else Exec(Step(s, actions[0]), actions[1..])
  }

  // ---- the inductive invariant ----

  /** A write takes the stored profile one version up; a write into an empty scope stores version 1, save
      that a put there keeps its own version unless that is 0. */
  predicate Raises(w: Write) {
    w.after.version == Version(w.before) + 1 || (w.source == Put && w.before == None && w.after.version != 0)
  }

  /** A put at a negative version into an empty scope. */
  predicate OpensNegative(w: Write) {
    w.source == Put && w.before == None && w.after.version < 0
  }

  ghost predicate OpenedNegative(writes: seq<Write>, scope: string) {
    exists j :: 0 <= j < |writes| && writes[j].scope == scope && OpensNegative(writes[j])
  }

  /** Versions rise along a scope and end in the stored one, which is positive unless a put opened the
      scope at a negative version. */
  ghost predicate WritesOK(s: State) {
    && (forall i :: 0 <= i < |s.writes| ==>
          && Raises(s.writes[i])
          && s.writes[i].scope in s.profiles
          && s.writes[i].after.version <= s.profiles[s.writes[i].scope].version)
    && (forall i, j :: 0 <= i < j < |s.writes| && s.writes[i].scope == s.writes[j].scope ==>
          s.writes[i].after.version < s.writes[j].after.version)
    && (forall scope :: scope in s.profiles && s.profiles[scope].version <= 0 ==> OpenedNegative(s.writes, scope))
  }

  ghost predicate Untouched(s: State, scope: string, since: nat) {
    forall j :: since <= j < |s.writes| ==> s.writes[j].scope != scope
  }

  /** Either nobody wrote since the read and the profile is still the one read, or its version moved on. */
  ghost predicate SnapOK(s: State, scope: string, seen: Snapshot) {
    && seen.readAt <= |s.writes|
    && (Untouched(s, scope, seen.readAt) ==> Current(s, scope) == seen.profile)
    && (!Untouched(s, scope, seen.readAt) ==>
          scope in s.profiles && (seen.profile.Some? ==> s.profiles[scope].version > seen.profile.value.version))
  }

  ghost predicate CallOK(s: State, p: nat)
    requires p < |s.calls|
  {
    var r := s.calls[p].request;
    match s.calls[p].stage
    case Loading(attempt) => 1 <= attempt <= 2
    case Checking(attempt, seen) => 1 <= attempt <= 2 && SnapOK(s, r.scope, seen) && !r.Unguarded?
    case Committing(attempt, seen) => 1 <= attempt <= 2 && SnapOK(s, r.scope, seen)
    case _ => true
  }

  predicate IsGuarded(w: Write) {
    w.source.Versioned? || w.source.Marked?
  }

  /** A guarded commit that found a profile where its caller had read none. */
  predicate IsBlind(w: Write) {
    IsGuarded(w) && w.before.Some? && w.source.read.profile == None
  }

  /** A guarded commit replaced exactly what its caller read, with nothing written in between. */
  ghost predicate ReplacedWhatWasRead(s: State, i: nat)
    requires i < |s.writes|
  {
    var w := s.writes[i];
    IsGuarded(w) ==>
      && w.before == w.source.read.profile
      && w.after == Profile(Version(w.before) + 1, Lineage(w.before) + [i])
      && w.source.read.readAt <= i
      && (forall j :: w.source.read.readAt <= j < i ==> s.writes[j].scope != w.scope)
  }

  /** A commit is blind only where the stored profile had risen from a negative version to exactly 0, the
      version an absent profile is presented with; any other replaced what was read. */
  ghost predicate CommitOK(s: State, i: nat)
    requires i < |s.writes|
  {
    var w := s.writes[i];
    if IsBlind(w) then w.before.value.version == 0 && OpenedNegative(s.writes[..i], w.scope)
    else ReplacedWhatWasRead(s, i)
  }

  /** A write with a caller is that caller's only one, of the caller's kind, and the caller ended there. */
  ghost predicate SourceOK(s: State, i: nat)
    requires i < |s.writes|
  {
    var w := s.writes[i];
    w.source != Put ==>
      && w.source.caller < |s.calls| && s.calls[w.source.caller].stage == Applied
      && s.calls[w.source.caller].request.scope == w.scope
      && (forall j :: 0 <= j < |s.writes| && j != i ==>
            s.writes[j].source == Put || s.writes[j].source.caller != w.source.caller)
      && (w.source.Marked? <==> HasCompletion(s.calls[w.source.caller].request))
      && (w.source.Upsert? <==> s.calls[w.source.caller].request.Unguarded?)
      && (w.source.Marked? ==>
            && w.source.key == MarkerKey(s.calls[w.source.caller].request)
            && w.source.key in s.markedBy && s.markedBy[w.source.key] == i)
  }

  /** A marker names the version that its one write stored. */
  ghost predicate MarkersOK(s: State) {
    && s.completions.Keys == s.markedBy.Keys
    && forall key :: key in s.completions ==>
         var i := s.markedBy[key];
         && i < |s.writes| && s.writes[i].source.Marked? && s.writes[i].source.key == key
         && s.completions[key].profileVersion == s.writes[i].after.version
  }

  ghost predicate Inv(s: State) {
    && WritesOK(s) && MarkersOK(s)
    && (forall p :: 0 <= p < |s.calls| ==> CallOK(s, p))
    && (forall i :: 0 <= i < |s.writes| ==> CommitOK(s, i) && SourceOK(s, i))
  }

  // ---- every step keeps it ----

  /** One write happened: it is logged and stored, and it raised the version. */
  ghost predicate Appends(s: State, s': State, w: Write) {
    && s'.writes == s.writes + [w]
    && s'.profiles == s.profiles[w.scope := w.after]
    && w.before == Current(s, w.scope)
    && Raises(w)
  }

  lemma AppendWrites(s: State, s': State, w: Write)
    requires WritesOK(s) && Appends(s, s', w)
    ensures WritesOK(s')
  {
    forall scope | scope in s'.profiles && s'.profiles[scope].version <= 0
      ensures OpenedNegative(s'.writes, scope)
    {
      if scope == w.scope && w.before == None {
        assert OpensNegative(s'.writes[|s.writes|]);
      } else {
        OpenedStays(s.writes, s'.writes, scope);
      }
    }
  }

  lemma OpenedStays(writes: seq<Write>, more: seq<Write>, scope: string)
    requires OpenedNegative(writes, scope) && writes <= more
    ensures OpenedNegative(more, scope)
  {
    var j :| 0 <= j < |writes| && writes[j].scope == scope && OpensNegative(writes[j]);
    assert more[j] == writes[j];
  }

  lemma AppendSnap(s: State, s': State, w: Write, scope: string, seen: Snapshot)
    requires Appends(s, s', w) && SnapOK(s, scope, seen)
    ensures SnapOK(s', scope, seen)
  {
    assert s'.writes[|s.writes|] == w;
    assert forall j :: 0 <= j < |s.writes| ==> s'.writes[j] == s.writes[j];
    if w.scope != scope {
      assert Untouched(s, scope, seen.readAt) ==> Untouched(s', scope, seen.readAt);
    }
  }

  /** Only call `p` (if any) changes its stage. */
  ghost predicate OnlyMoves(s: State, s': State, p: nat) {
    && p < |s.calls| == |s'.calls|
    && s'.calls[p].request == s.calls[p].request
    && forall q :: 0 <= q < |s.calls| && q != p ==> s'.calls[q] == s.calls[q]
  }

  lemma AppendCalls(s: State, s': State, w: Write, p: nat)
    requires forall q :: 0 <= q < |s.calls| ==> CallOK(s, q)
    requires Appends(s, s', w) && OnlyMoves(s, s', p) && s'.calls[p].stage == Applied
    ensures forall q :: 0 <= q < |s'.calls| ==> CallOK(s', q)
  {
    forall q | 0 <= q < |s'.calls| ensures CallOK(s', q) {
      assert CallOK(s, q);
      match s.calls[q].stage
      case Checking(_, seen) => AppendSnap(s, s', w, s.calls[q].request.scope, seen);
      case Committing(_, seen) => AppendSnap(s, s', w, s.calls[q].request.scope, seen);
      case _ =>
    }
  }

  lemma AppendReads(s: State, s': State, w: Write)
    requires Appends(s, s', w)
    requires forall i :: 0 <= i < |s.writes| ==> CommitOK(s, i)
    requires CommitOK(s', |s.writes|)
    ensures forall i :: 0 <= i < |s'.writes| ==> CommitOK(s', i)
  {
    forall i | 0 <= i < |s.writes| ensures CommitOK(s', i) {
      assert CommitOK(s, i) && s'.writes[i] == s.writes[i];
      assert s'.writes[..i] == s.writes[..i];
    }
  }

  /** The earlier writes keep their sources when the writer is a call that had not written before. */
  lemma AppendSources(s: State, s': State, w: Write, p: nat)
    requires Appends(s, s', w) && OnlyMoves(s, s', p)
    requires s.calls[p].stage.Committing? && s'.calls[p].stage == Applied
    requires w.source != Put && w.source.caller == p && w.scope == s.calls[p].request.scope
    requires forall i :: 0 <= i < |s.writes| ==> SourceOK(s, i)
    requires w.source.Marked? <==> HasCompletion(s.calls[p].request)
    requires w.source.Upsert? <==> s.calls[p].request.Unguarded?
    requires if w.source.Marked? then
        && w.source.key !in s.markedBy && s'.markedBy == s.markedBy[w.source.key := |s.writes|]
        && HasCompletion(s.calls[p].request) && w.source.key == MarkerKey(s.calls[p].request)
      else s'.markedBy == s.markedBy
    ensures forall i :: 0 <= i < |s'.writes| ==> SourceOK(s', i)
  {
    forall i | 0 <= i < |s'.writes| ensures SourceOK(s', i) {
      if i < |s.writes| {
        assert SourceOK(s, i) && s'.writes[i] == s.writes[i];
      } else {
        forall j | 0 <= j < |s.writes| ensures s'.writes[j].source == Put || s'.writes[j].source.caller != p {
          assert SourceOK(s, j);
        }
      }
    }
  }

  lemma PutInv(s: State, scope: string, version: int)
    requires Inv(s)
    ensures Inv(Step(s, PutProfile(scope, version)))
  {
    var s' := Step(s, PutProfile(scope, version));
    var w := s'.writes[|s.writes|];
    AppendWrites(s, s', w);
    forall q | 0 <= q < |s'.calls| ensures CallOK(s', q) {
      assert CallOK(s, q);
      match s.calls[q].stage
      case Checking(_, seen) => AppendSnap(s, s', w, s.calls[q].request.scope, seen);
      case Committing(_, seen) => AppendSnap(s, s', w, s.calls[q].request.scope, seen);
      case _ =>
    }
    AppendReads(s, s', w);
    forall i | 0 <= i < |s'.writes| ensures SourceOK(s', i) {
      if i < |s.writes| { assert SourceOK(s, i); }
    }
  }

  /** A step that only moves one call to a stage without a write. */
  lemma MoveInv(s: State, p: nat, stage: Stage)
    requires Inv(s) && p < |s.calls| && s.calls[p].stage != Applied
    requires CallOK(Move(s, p, stage), p)
    ensures Inv(Move(s, p, stage))
  {
    var s' := Move(s, p, stage);
    forall q | 0 <= q < |s'.calls| ensures CallOK(s', q) {
      assert q != p ==> CallOK(s, q);
    }
    forall i | 0 <= i < |s'.writes| ensures CommitOK(s', i) && SourceOK(s', i) {
      assert CommitOK(s, i) && SourceOK(s, i);
    }
  }

  /** What a compare-and-swap that succeeds proves about the snapshot it was computed from. */
  lemma CasReplaces(s: State, p: nat, attempt: nat, seen: Snapshot, next: Profile)
    requires WritesOK(s) && p < |s.calls| && CallOK(s, p) && s.calls[p].stage == Committing(attempt, seen)
    requires Replaced(s.profiles, s.calls[p].request.scope, next, Version(seen.profile)).Ok?
    ensures SwapOK(s, s.calls[p].request.scope, seen)
    ensures var scope := s.calls[p].request.scope;
      Replaced(s.profiles, scope, next, Version(seen.profile)).value
        == s.profiles[scope := next.(version := Version(seen.profile) + 1)]
  {
  }

  /** The stored profile is the one read, nothing written since; or none was read and version 0 is there. */
  ghost predicate SwapOK(s: State, scope: string, seen: Snapshot) {
    && seen.readAt <= |s.writes| && Version(Current(s, scope)) == Version(seen.profile)
    && if Current(s, scope).Some? && seen.profile == None then OpenedNegative(s.writes, scope)
       else Current(s, scope) == seen.profile && Untouched(s, scope, seen.readAt)
  }

  /** A successful guarded commit, with or without a marker. */
  lemma GuardedInv(s: State, s': State, p: nat, attempt: nat, seen: Snapshot)
    requires Inv(s) && p < |s.calls| && s.calls[p].stage == Committing(attempt, seen)
    requires SwapOK(s, s.calls[p].request.scope, seen) && OnlyMoves(s, s', p) && s'.calls[p].stage == Applied
    requires |s'.writes| == |s.writes| + 1 && s'.writes == s.writes + [s'.writes[|s.writes|]]
    requires var w, scope := s'.writes[|s.writes|], s.calls[p].request.scope;
      && w == Write(
           scope, Current(s, scope), Profile(Version(seen.profile) + 1, Lineage(seen.profile) + [|s.writes|]), w.source)
      && s'.profiles == s.profiles[scope := w.after]
      && !s.calls[p].request.Unguarded?
      && ((w.source == Versioned(p, seen) && !HasCompletion(s.calls[p].request)
           && s'.markedBy == s.markedBy && s'.completions == s.completions)
          || (&& w.source.Marked? && w.source == Marked(p, seen, w.source.key)
              && HasCompletion(s.calls[p].request) && w.source.key == MarkerKey(s.calls[p].request)
              && w.source.key !in s.completions
              && s'.markedBy == s.markedBy[w.source.key := |s.writes|]
              && w.source.key in s'.completions && s'.completions[w.source.key].profileVersion == w.after.version
              && s'.completions == s.completions[w.source.key := s'.completions[w.source.key]]))
    ensures Inv(s')
  {
    var w := s'.writes[|s.writes|];
    assert CallOK(s, p);
    assert s'.writes[..|s.writes|] == s.writes;
    AppendWrites(s, s', w);
    AppendCalls(s, s', w, p);
    AppendReads(s, s', w);
    AppendSources(s, s', w, p);
    assert MarkersOK(s') by { AppendMarkers(s, s', w); }
  }

  lemma AppendMarkers(s: State, s': State, w: Write)
    requires MarkersOK(s) && s'.writes == s.writes + [w]
    requires (s'.markedBy == s.markedBy && s'.completions == s.completions)
      || (&& w.source.Marked? && w.source.key !in s.completions
          && s'.markedBy == s.markedBy[w.source.key := |s.writes|]
          && w.source.key in s'.completions && s'.completions[w.source.key].profileVersion == w.after.version
          && s'.completions == s.completions[w.source.key := s'.completions[w.source.key]])
    ensures MarkersOK(s')
  {
    forall key | key in s'.completions
      ensures key in s'.markedBy
        && var i := s'.markedBy[key];
        && i < |s'.writes| && s'.writes[i].source.Marked? && s'.writes[i].source.key == key
        && s'.completions[key].profileVersion == s'.writes[i].after.version
    {
      if key in s.completions {
        var i := s.markedBy[key];
        assert i < |s.writes| && s'.writes[i] == s.writes[i];
      }
    }
  }

  lemma UpsertInv(s: State, p: nat, attempt: nat, seen: Snapshot, event: string)
    requires Inv(s) && p < |s.calls| && s.calls[p].stage == Committing(attempt, seen) && s.calls[p].request.Unguarded?
    ensures Inv(CommitStep(s, p, attempt, seen, event))
  {
    var s' := CommitStep(s, p, attempt, seen, event);
    var w := s'.writes[|s.writes|];
    assert CallOK(s, p);
    AppendWrites(s, s', w);
    AppendCalls(s, s', w, p);
    AppendReads(s, s', w);
    AppendSources(s, s', w, p);
    AppendMarkers(s, s', w);
  }

  lemma CommitInv(s: State, p: nat, attempt: nat, seen: Snapshot, event: string)
    requires Inv(s) && p < |s.calls| && s.calls[p].stage == Committing(attempt, seen)
    ensures Inv(CommitStep(s, p, attempt, seen, event))
  {
    if s.calls[p].request.Unguarded? {
      UpsertInv(s, p, attempt, seen, event);
    } else if HasCompletion(s.calls[p].request) {
      MarkedInv(s, p, attempt, seen, event);
    } else {
      VersionedInv(s, p, attempt, seen, event);
    }
  }

  lemma LostInv(s: State, p: nat, attempt: nat, seen: Snapshot, e: StoreError)
    requires Inv(s) && p < |s.calls| && s.calls[p].stage == Committing(attempt, seen)
    ensures Inv(Lost(s, p, attempt, e))
  {
    MoveInv(s, p, Lost(s, p, attempt, e).calls[p].stage);
  }

  lemma VersionedInv(s: State, p: nat, attempt: nat, seen: Snapshot, event: string)
    requires Inv(s) && p < |s.calls| && s.calls[p].stage == Committing(attempt, seen)
    requires !s.calls[p].request.Unguarded? && !HasCompletion(s.calls[p].request)
    ensures Inv(CommitStep(s, p, attempt, seen, event))
  {
    var r, expected := s.calls[p].request, Version(seen.profile);
    var next := Profile(expected, Lineage(seen.profile) + [|s.writes|]);
    match Replaced(s.profiles, r.scope, next, expected)
    case Err(e) => LostInv(s, p, attempt, seen, e);
    case Ok(_) =>
      assert CallOK(s, p);
      CasReplaces(s, p, attempt, seen, next);
      GuardedInv(s, CommitStep(s, p, attempt, seen, event), p, attempt, seen);
  }

  lemma MarkedInv(s: State, p: nat, attempt: nat, seen: Snapshot, event: string)
    requires Inv(s) && p < |s.calls| && s.calls[p].stage == Committing(attempt, seen)
    requires !s.calls[p].request.Unguarded? && HasCompletion(s.calls[p].request)
    ensures Inv(CommitStep(s, p, attempt, seen, event))
  {
    var r, expected := s.calls[p].request, Version(seen.profile);
    var next := Profile(expected, Lineage(seen.profile) + [|s.writes|]);
    match Stamped(CompletionOf(r, event), expected)
    case None => MoveInv(s, p, Failed);
    case Some(c) =>
      match ReplacedAndMarked(s.profiles, s.completions, r.scope, next, expected, c)
      case Err(e) => LostInv(s, p, attempt, seen, e);
      case Ok(_) => MarkedOkInv(s, p, attempt, seen, next, event, c);
  }

  lemma MarkedOkInv(s: State, p: nat, attempt: nat, seen: Snapshot, next: Profile, event: string, c: Completion)
    requires Inv(s) && p < |s.calls| && s.calls[p].stage == Committing(attempt, seen)
    requires !s.calls[p].request.Unguarded? && HasCompletion(s.calls[p].request)
    requires next == Profile(Version(seen.profile), Lineage(seen.profile) + [|s.writes|])
    requires Stamped(CompletionOf(s.calls[p].request, event), Version(seen.profile)) == Some(c)
    requires ReplacedAndMarked(s.profiles, s.completions, s.calls[p].request.scope, next, Version(seen.profile), c).Ok?
    ensures Inv(CommitMarked(s, p, attempt, seen, next, event))
  {
    StampedKey(s.calls[p].request, event, Version(seen.profile));
    assert CallOK(s, p);
    CasReplaces(s, p, attempt, seen, next);
    GuardedInv(s, CommitMarked(s, p, attempt, seen, next, event), p, attempt, seen);
  }

  /** The key a commit marks is the key the processed check looked up. */
  lemma StampedKey(r: Request, event: string, expected: int)
    requires HasCompletion(r)
    ensures var c := Stamped(CompletionOf(r, event), expected);
      c.Some? ==> KeyOf(r.scope, c.value) == MarkerKey(r) && c.value.profileVersion == expected + 1
  {
  }

  lemma ArriveInv(s: State, request: Request)
    requires Inv(s)
    ensures Inv(Step(s, Arrive(request)))
  {
    var s' := Step(s, Arrive(request));
    forall q | 0 <= q < |s'.calls| ensures CallOK(s', q) {
      if q < |s.calls| { assert CallOK(s, q); }
    }
    forall i | 0 <= i < |s'.writes| ensures CommitOK(s', i) && SourceOK(s', i) {
      assert CommitOK(s, i) && SourceOK(s, i);
    }
  }

  lemma StepInv(s: State, a: Action)
    requires Inv(s)
    ensures Inv(Step(s, a))
  {
    match a
    case Arrive(request) => ArriveInv(s, request);
    case PutProfile(scope, version) => PutInv(s, scope, version);
    case Abort(p) => if IsRunning(s, p) { MoveInv(s, p, Failed); }
    case Advance(p, proceed, event) => if p < |s.calls| { AdvanceInv(s, p, proceed, event); }
  }

  lemma AdvanceInv(s: State, p: nat, proceed: bool, event: string)
    requires Inv(s) && p < |s.calls|
    ensures Inv(Step(s, Advance(p, proceed, event)))
  {
    match s.calls[p].stage
    case Loading(attempt) => LoadInv(s, p, attempt);
    case Checking(attempt, seen) => CheckInv(s, p, attempt, seen, proceed);
    case Committing(attempt, seen) => CommitInv(s, p, attempt, seen, event);
    case _ =>
  }

  lemma LoadInv(s: State, p: nat, attempt: nat)
    requires Inv(s) && p < |s.calls| && s.calls[p].stage == Loading(attempt)
    ensures Inv(LoadStep(s, p, attempt))
  {
    assert CallOK(s, p);
    MoveInv(s, p, LoadStep(s, p, attempt).calls[p].stage);
  }

  lemma CheckInv(s: State, p: nat, attempt: nat, seen: Snapshot, proceed: bool)
    requires Inv(s) && p < |s.calls| && s.calls[p].stage == Checking(attempt, seen)
    ensures Inv(CheckStep(s, p, attempt, seen, proceed))
  {
    assert CallOK(s, p);
    MoveInv(s, p, CheckStep(s, p, attempt, seen, proceed).calls[p].stage);
  }

  lemma {:induction false} ExecInv(s: State, actions: seq<Action>)
    requires Inv(s)
    ensures Inv(Exec(s, actions))
    decreases |actions|
  {
    if actions != [] {
      StepInv(s, actions[0]);
      ExecInv(Step(s, actions[0]), actions[1..]);
    }
  }

  // ---- the promises ----

  /** No lost update and no ABA, exactly: in every run a guarded commit that succeeded replaced the profile
      its caller read, nobody wrote in between, and its contents are those of that profile plus its own, if
      and only if it did not find a profile where its caller had read none. */
  lemma NoLostUpdateIff(actions: seq<Action>)
    ensures var s := Exec(Init(), actions);
      forall i :: 0 <= i < |s.writes| ==>
        && (ReplacedWhatWasRead(s, i) <==> !IsBlind(s.writes[i]))
        && (IsBlind(s.writes[i]) ==> s.writes[i].before.value.version == 0)
  {
    ExecInv(Init(), actions);
    var s := Exec(Init(), actions);
    forall i | 0 <= i < |s.writes|
      ensures ReplacedWhatWasRead(s, i) <==> !IsBlind(s.writes[i])
      ensures IsBlind(s.writes[i]) ==> s.writes[i].before.value.version == 0
    {
      assert CommitOK(s, i);
    }
  }

  /** Along a scope the versions rise with every write, by exactly one save for a put into an empty scope,
      and the last one is stored. */
  lemma VersionsRise(actions: seq<Action>)
    ensures var s := Exec(Init(), actions);
      forall i :: 0 <= i < |s.writes| ==> RaisesVersion(s, i)
  {
    ExecInv(Init(), actions);
  }

  ghost predicate RaisesVersion(s: State, i: nat)
    requires i < |s.writes|
  {
    var w := s.writes[i];
    && Raises(w)
    && (forall j :: 0 <= j < i && s.writes[j].scope == w.scope ==> s.writes[j].after.version < w.after.version)
    && w.scope in s.profiles && w.after.version <= s.profiles[w.scope].version
  }

  /** The action puts a negative version into a scope without a profile. */
  ghost predicate PutsNegative(actions: seq<Action>, k: int, scope: string) {
    && 0 <= k < |actions| && actions[k].PutProfile? && actions[k].scope == scope && actions[k].version < 0
    && scope !in Exec(Init(), actions[..k]).profiles
  }

  lemma {:induction false} OpenedByPut(actions: seq<Action>, scope: string) returns (k: nat)
    requires OpenedNegative(Exec(Init(), actions).writes, scope)
    ensures PutsNegative(actions, k, scope)
    decreases |actions|
  {
    assert Exec(Init(), []).writes == [];
    var front, last := actions[..|actions| - 1], actions[|actions| - 1];
    ExecSnoc(Init(), actions);
    var s := Exec(Init(), front);
    if OpenedNegative(s.writes, scope) {
      k := OpenedByPut(front, scope);
      assert front[..k] == actions[..k];
    } else {
      k := |front|;
      OpenedNow(s, last, scope);
    }
  }

  /** Only a put opens a scope at a negative version. */
  lemma OpenedNow(s: State, a: Action, scope: string)
    requires OpenedNegative(Step(s, a).writes, scope)
    ensures OpenedNegative(s.writes, scope)
      || (a.PutProfile? && a.scope == scope && a.version < 0 && scope !in s.profiles)
  {
    StepWrites(s, a);
    OpenedByLast(s.writes, Step(s, a).writes, scope);
  }

  lemma OpenedByLast(writes: seq<Write>, more: seq<Write>, scope: string)
    requires writes <= more && |more| <= |writes| + 1 && OpenedNegative(more, scope)
    ensures OpenedNegative(writes, scope)
      || (|more| > |writes| && more[|writes|].scope == scope && OpensNegative(more[|writes|]))
  {
    var j :| 0 <= j < |more| && more[j].scope == scope && OpensNegative(more[j]);
    if j < |writes| {
      assert writes[j] == more[j];
    }
  }

  lemma ExecSnoc(s: State, actions: seq<Action>)
    requires actions != []
    ensures Exec(s, actions) == Step(Exec(s, actions[..|actions| - 1]), actions[|actions| - 1])
  {
    var front, last := actions[..|actions| - 1], actions[|actions| - 1];
    assert actions == front + [last];
    ExecConcat(s, front, [last]);
    ExecCons(Exec(s, front), last, []);
  }

  /** A step writes at most once, and only a put writes without a caller. */
  lemma StepWrites(s: State, a: Action)
    ensures var t := Step(s, a);
      && s.writes <= t.writes && |t.writes| <= |s.writes| + 1
      && (|t.writes| > |s.writes| && OpensNegative(t.writes[|s.writes|]) ==>
            && a.PutProfile? && a.version < 0 && a.scope == t.writes[|s.writes|].scope
            && a.scope !in s.profiles)
  {
    if a.Advance? && a.caller < |s.calls| && s.calls[a.caller].stage.Committing? {
      var stage := s.calls[a.caller].stage;
      CommitShape(s, a.caller, stage.attempt, stage.seen, a.sourceEventID);
    }
  }

  /** So while no action puts a negative version into a scope without a profile, every guarded commit
      there replaces what was read. Puts at negative versions that find a profile do no harm. */
  lemma NoLostUpdate(actions: seq<Action>, i: nat)
    requires i < |Exec(Init(), actions).writes|
    requires forall k :: !PutsNegative(actions, k, Exec(Init(), actions).writes[i].scope)
    ensures ReplacedWhatWasRead(Exec(Init(), actions), i)
  {
    ExecInv(Init(), actions);
    var s := Exec(Init(), actions);
    assert CommitOK(s, i);
    if IsBlind(s.writes[i]) {
      OpenedStays(s.writes[..i], s.writes, s.writes[i].scope);
      var k := OpenedByPut(actions, s.writes[i].scope);
    }
  }

  /** Two different writes never apply the same completion, and never share a version within a scope. */
  ghost predicate DistinctMarks(s: State, i: nat, j: nat)
    requires i < |s.writes| && j < |s.writes|
  {
    var a, b := s.writes[i], s.writes[j];
    i != j && a.source.Marked? && b.source.Marked? ==>
      a.source.key != b.source.key && (a.scope == b.scope ==> a.after.version != b.after.version)
  }

  /** A marker was set by one write, which stored the version the marker names. */
  ghost predicate MarkerOfOneWrite(s: State, key: string)
    requires key in s.completions
  {
    exists i :: 0 <= i < |s.writes| && s.writes[i].source.Marked? && s.writes[i].source.key == key
      && s.completions[key].profileVersion == s.writes[i].after.version
  }

  lemma AppliedOnce(actions: seq<Action>)
    ensures var s := Exec(Init(), actions);
      && (forall i, j :: 0 <= i < |s.writes| && 0 <= j < |s.writes| ==> DistinctMarks(s, i, j))
      && (forall key :: key in s.completions ==> MarkerOfOneWrite(s, key))
  {
    ExecInv(Init(), actions);
    var s := Exec(Init(), actions);
    forall i, j | 0 <= i < |s.writes| && 0 <= j < |s.writes| ensures DistinctMarks(s, i, j) {
      assert SourceOK(s, i) && SourceOK(s, j);
    }
    forall key | key in s.completions ensures MarkerOfOneWrite(s, key) {
      assert s.writes[s.markedBy[key]].source.Marked?;
    }
  }

  /** What happens later never rewrites what happened. */
  ghost predicate Extends(s: State, t: State) {
    && |s.writes| <= |t.writes| && t.writes[..|s.writes|] == s.writes
    && |s.calls| <= |t.calls|
    && (forall p :: 0 <= p < |s.calls| ==>
          && t.calls[p].request == s.calls[p].request
          && (s.calls[p].stage == Applied ==> t.calls[p].stage == Applied))
    && (forall key :: key in s.completions ==> key in t.completions && t.completions[key] == s.completions[key])
    && (forall key :: key in s.markedBy ==>
          key in t.markedBy && (key in s.completions ==> t.markedBy[key] == s.markedBy[key]))
  }

  lemma StepExtends(s: State, a: Action)
    requires MarkersOK(s)
    ensures Extends(s, Step(s, a))
  {
    match a
    case Arrive(_) =>
    case PutProfile(_, _) =>
    case Abort(p) => if IsRunning(s, p) { MoveExtends(s, p, Failed); }
    case Advance(p, proceed, event) => if p < |s.calls| { AdvanceExtends(s, p, proceed, event); }
  }

  lemma AdvanceExtends(s: State, p: nat, proceed: bool, event: string)
    requires MarkersOK(s) && p < |s.calls|
    ensures Extends(s, Step(s, Advance(p, proceed, event)))
  {
    match s.calls[p].stage
    case Loading(attempt) => MoveExtends(s, p, LoadStep(s, p, attempt).calls[p].stage);
    case Checking(attempt, seen) => MoveExtends(s, p, CheckStep(s, p, attempt, seen, proceed).calls[p].stage);
    case Committing(attempt, seen) =>
      CommitShape(s, p, attempt, seen, event);
      CommitExtends(s, CommitStep(s, p, attempt, seen, event), p);
    case _ =>
  }

  lemma MoveExtends(s: State, p: nat, stage: Stage)
    requires p < |s.calls| && s.calls[p].stage != Applied
    ensures Extends(s, Move(s, p, stage))
  {
  }

  lemma CommitExtends(s: State, s': State, p: nat)
    requires MarkersOK(s) && p < |s.calls| && s.calls[p].stage.Committing?
    requires OneWrite(s, s', p) || (s' == s.(calls := s'.calls) && OnlyMoves(s, s', p))
    ensures Extends(s, s')
  {
  }

  /** What one commit attempt does: nothing but move its call, or one write of that call. */
  ghost predicate OneWrite(s: State, s': State, p: nat) {
    && OnlyMoves(s, s', p) && s'.calls[p].stage == Applied
    && |s'.writes| == |s.writes| + 1 && s'.writes[..|s.writes|] == s.writes
    && var w, scope := s'.writes[|s.writes|], s.calls[p].request.scope;
    && w.scope == scope && w.before == Current(s, scope) && s'.profiles == s.profiles[scope := w.after]
    && w.source != Put && w.source.caller == p && (w.source.Upsert? <==> s.calls[p].request.Unguarded?)
    && s.calls[p].stage.Committing? && w.source.read == s.calls[p].stage.seen
    && w.after.lineage == Lineage(w.source.read.profile) + [|s.writes|]
    && ((s'.completions == s.completions && s'.markedBy == s.markedBy)
        || (&& w.source.Marked? && w.source.key !in s.completions && w.source.key in s'.completions
            && s'.completions == s.completions[w.source.key := s'.completions[w.source.key]]
            && s'.markedBy == s.markedBy[w.source.key := |s.writes|]))
  }

  lemma CommitShape(s: State, p: nat, attempt: nat, seen: Snapshot, event: string)
    requires p < |s.calls| && s.calls[p].stage == Committing(attempt, seen)
    ensures var s' := CommitStep(s, p, attempt, seen, event);
      OneWrite(s, s', p) || (s' == s.(calls := s'.calls) && OnlyMoves(s, s', p))
  {
    var r := s.calls[p].request;
    if !r.Unguarded? && HasCompletion(r) {
      MarkedShape(s, p, attempt, seen, Profile(Version(seen.profile), Lineage(seen.profile) + [|s.writes|]), event);
    }
  }

  lemma MarkedShape(s: State, p: nat, attempt: nat, seen: Snapshot, next: Profile, event: string)
    requires p < |s.calls| && s.calls[p].stage == Committing(attempt, seen)
    requires !s.calls[p].request.Unguarded? && HasCompletion(s.calls[p].request)
    requires next.lineage == Lineage(seen.profile) + [|s.writes|]
    ensures var s' := CommitMarked(s, p, attempt, seen, next, event);
      OneWrite(s, s', p) || (s' == s.(calls := s'.calls) && OnlyMoves(s, s', p))
  {
    match Stamped(CompletionOf(s.calls[p].request, event), Version(seen.profile))
    case None => MovesOnly(s, p, Failed);
    case Some(c) =>
      match ReplacedAndMarked(s.profiles, s.completions, s.calls[p].request.scope, next, Version(seen.profile), c)
      case Err(e) => MovesOnly(s, p, Lost(s, p, attempt, e).calls[p].stage);
      case Ok(_) => MarkedWrite(s, p, seen, next, c);
  }

  lemma MovesOnly(s: State, p: nat, stage: Stage)
    requires p < |s.calls|
    ensures var s' := Move(s, p, stage); s' == s.(calls := s'.calls) && OnlyMoves(s, s', p)
  {
  }

  lemma MarkedWrite(s: State, p: nat, seen: Snapshot, next: Profile, c: Completion)
    requires p < |s.calls| && s.calls[p].stage.Committing? && s.calls[p].stage.seen == seen
    requires next.lineage == Lineage(seen.profile) + [|s.writes|]
    ensures var r := s.calls[p].request;
      match ReplacedAndMarked(s.profiles, s.completions, r.scope, next, Version(seen.profile), c)
      case Err(_) => true
      case Ok((profiles, completions)) =>
        var key := KeyOf(r.scope, c);
        r.scope in profiles &&
        (!r.Unguarded? ==>
          var w := Write(r.scope, Current(s, r.scope), profiles[r.scope], Marked(p, seen, key));
          var s' := s.(profiles := profiles, completions := completions, markedBy := s.markedBy[key := |s.writes|],
                       writes := s.writes + [w]);
          OneWrite(s, Move(s', p, Applied), p))
  {
  }

  lemma {:induction false} ExecExtends(s: State, actions: seq<Action>)
    requires Inv(s)
    ensures Extends(s, Exec(s, actions))
    decreases |actions|
  {
    if actions != [] {
      var mid := Step(s, actions[0]);
      StepExtends(s, actions[0]);
      StepInv(s, actions[0]);
      ExecExtends(mid, actions[1..]);
      ExtendsTransitive(s, mid, Exec(mid, actions[1..]));
    }
  }

  lemma ExtendsTransitive(a: State, b: State, c: State)
    requires Extends(a, b) && Extends(b, c)
    ensures Extends(a, c)
  {
    assert a.writes == b.writes[..|a.writes|] == c.writes[..|b.writes|][..|a.writes|];
  }

  /** Write `i` was not made by a refresh for the completion with this key. */
  ghost predicate WriterElsewhere(t: State, i: nat, key: string)
    requires i < |t.writes|
  {
    t.writes[i].source != Put ==>
      && t.writes[i].source.caller < |t.calls|
      && var request := t.calls[t.writes[i].source.caller].request;
      HasCompletion(request) ==> MarkerKey(request) != key
  }

  /** Once a completion is marked, its marker never changes and no refresh for it writes again, however
      the run goes on: not a concurrent one, not a retry, not a later one. */
  lemma MarkedForGood(before: seq<Action>, later: seq<Action>, key: string)
    requires key in Exec(Init(), before).completions
    ensures var s := Exec(Init(), before);
      var t := Exec(s, later);
      && key in t.completions && t.completions[key] == s.completions[key]
      && s.writes <= t.writes
      && forall i :: |s.writes| <= i < |t.writes| ==> WriterElsewhere(t, i, key)
  {
    var s := Exec(Init(), before);
    var t := Exec(s, later);
    ExecInv(Init(), before);
    ExecInv(s, later);
    ExecExtends(s, later);
    forall i | |s.writes| <= i < |t.writes| ensures WriterElsewhere(t, i, key) {
      assert SourceOK(t, i);
    }
  }

  lemma ExecCons(s: State, a: Action, rest: seq<Action>)
    ensures Exec(s, [a] + rest) == Exec(Step(s, a), rest)
  {
    assert ([a] + rest)[1..] == rest;
  }

  lemma {:induction false} ExecConcat(s: State, first: seq<Action>, second: seq<Action>)
    ensures Exec(s, first + second) == Exec(Exec(s, first), second)
    decreases |first|
  {
    if first == [] {
      assert first + second == second;
    } else {
      assert first + second == [first[0]] + (first[1..] + second);
      ExecCons(s, first[0], first[1..] + second);
      ExecConcat(Step(s, first[0]), first[1..], second);
    }
  }

  /** Each such put matters: for every negative version, a put of it into an empty scope makes possible a run
      in which a versioned commit replaces a profile its caller never read. */
  lemma NegativePutAllowsBlindCommit(version: int)
    requires version < 0
    ensures exists actions :: BlindCommit(Exec(Init(), actions))
  {
    var refresh := Refresh("w", "", "", "", "", "r");
    var go := Advance(0, true, "e");
    assert Trim("") == "";
    var none := Snapshot(None, 0);
    var ready := State(map[], map[], [Call(refresh, Committing(1, none))], [], map[]);
    var puts := Repeat(PutProfile("w", version), 1 - version);
    RepeatedPuts(ready, version, 1 - version);
    var raised := Exec(ready, puts);
    BlindStep(raised, refresh);
    ExecCons(raised, go, []);
    ExecConcat(ready, puts, [go]);
    ExecCons(Step(Step(Init(), Arrive(refresh)), go), go, puts + [go]);
    ExecCons(Step(Init(), Arrive(refresh)), go, [go] + (puts + [go]));
    ExecCons(Init(), Arrive(refresh), [go] + ([go] + (puts + [go])));
    assert Step(Step(Step(Init(), Arrive(refresh)), go), go) == ready;
  }

  /** A profile stored at version 0 passes the compare-and-swap of a caller that read nothing. */
  lemma BlindStep(s: State, refresh: Request)
    requires s.calls == [Call(refresh, Committing(1, Snapshot(None, 0)))]
    requires refresh.Refresh? && refresh.scope == "w" && !HasCompletion(refresh)
    requires "w" in s.profiles && s.profiles["w"].version == 0
    ensures BlindCommit(Step(s, Advance(0, true, "e")))
  {
    var s' := Step(s, Advance(0, true, "e"));
    assert s'.writes[|s.writes|].source == Versioned(0, Snapshot(None, 0));
    assert s'.writes[|s.writes|].before == Some(s.profiles["w"]);
  }

  ghost predicate BlindCommit(s: State) {
    exists i :: 0 <= i < |s.writes| && IsBlind(s.writes[i]) && !ReplacedWhatWasRead(s, i)
  }

  function Repeat(a: Action, n: nat): seq<Action> {
    if n == 0 then [] else Repeat(a, n - 1) + [a]
  }

  /** n puts leave the scope at the put version plus n - 1. */
  lemma {:induction false} RepeatedPuts(s: State, version: int, n: nat)
    requires "w" !in s.profiles && version < 0 && 1 <= n <= 1 - version
    ensures var t := Exec(s, Repeat(PutProfile("w", version), n));
      && "w" in t.profiles && t.profiles["w"].version == version + n - 1
      && t.calls == s.calls && t.completions == s.completions
  {
    var a := PutProfile("w", version);
    ExecConcat(s, Repeat(a, n - 1), [a]);
    var mid := Exec(s, Repeat(a, n - 1));
    ExecCons(mid, a, []);
    if n > 1 {
      RepeatedPuts(s, version, n - 1);
    }
  }
}
