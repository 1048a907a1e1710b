/** Which writes a profile contains. A profile's lineage lists the writes whose contents went into it;
    nothing is lost while the stored profiles contain every write of their scope. */
module ProfileLoss {
  import opened Options
  import opened ProfileStore
  import opened ProfileRefresh
  import opened Text

  // ---- the log of writes on its own ----

  /** The profile a log leaves in a scope. */
  function LastOf(writes: seq<Write>, scope: string): Option<Profile> {
    if writes == [] then None
    else if writes[|writes| - 1].scope == scope then Some(writes[|writes| - 1].after)
    else LastOf(writes[..|writes| - 1], scope)
  }

  /** The profile a write was computed from: what its caller read, nothing for a put. */
  function Base(w: Write): Option<Profile> {
    if w.source == Put then None else w.source.read.profile
  }

  /** The write replaced the profile it was computed from. */
  predicate UpToDate(w: Write) {
    w.before == Base(w)
  }

  /** A profile that the log left in the scope at some time, or none. */
  ghost predicate Left(writes: seq<Write>, scope: string, seen: Option<Profile>) {
    seen == None || exists k :: 0 <= k < |writes| && writes[k].scope == scope && Some(writes[k].after) == seen
  }

  /** The write comes after the log: it replaced the last profile of its scope, and adds itself to the
      profile it was computed from, which is one that the log left. */
  ghost predicate Follows(writes: seq<Write>, w: Write) {
    && w.before == LastOf(writes, w.scope)
    && w.after.lineage == Lineage(Base(w)) + [|writes|]
    && Left(writes, w.scope, Base(w))
  }

  ghost predicate Built(writes: seq<Write>) {
    forall i :: 0 <= i < |writes| ==> Follows(writes[..i], writes[i])
  }

  /** The earlier write whose profile write i was computed from. */
  lemma BaseWrite(writes: seq<Write>, i: nat) returns (k: nat)
    requires Built(writes) && i < |writes| && Base(writes[i]) != None
    ensures k < i && writes[k].scope == writes[i].scope && Some(writes[k].after) == Base(writes[i])
  {
    var front, w := writes[..i], writes[i];
    assert Follows(front, w);
    k :| 0 <= k < |front| && front[k].scope == w.scope && Some(front[k].after) == Base(w);
  }

  ghost predicate Lossless(writes: seq<Write>) {
    forall i :: 0 <= i < |writes| ==> i in Lineage(LastOf(writes, writes[i].scope))
  }

  lemma {:induction false} WrittenScope(writes: seq<Write>, k: nat)
    requires k < |writes|
    ensures LastOf(writes, writes[k].scope) != None
  {
    if k < |writes| - 1 {
      WrittenScope(writes[..|writes| - 1], k);
    }
  }

  /** The write that left the profile. */
  lemma {:induction false} LastWrite(writes: seq<Write>, scope: string) returns (m: nat)
    requires LastOf(writes, scope) != None
    ensures m < |writes| && writes[m].scope == scope && Some(writes[m].after) == LastOf(writes, scope)
    ensures forall i :: m < i < |writes| ==> writes[i].scope != scope
  {
    m := |writes| - 1;
    if writes[m].scope != scope {
      var front := writes[..m];
      var l := LastWrite(front, scope);
      assert forall i :: l < i < |front| ==> writes[i] == front[i];
      m := l;
    }
  }

  /** A lineage holds only writes up to its own, and below each of them exactly that write's lineage. */
  lemma {:induction false} LineageClosed(writes: seq<Write>, i: nat, x: nat, y: nat)
    requires Built(writes) && i < |writes| && x in writes[i].after.lineage
    ensures x <= i && (y in writes[i].after.lineage && y <= x ==> y in writes[x].after.lineage)
    decreases i
  {
    assert Follows(writes[..i], writes[i]);
    if x != i {
      var k := BaseWrite(writes, i);
      LineageClosed(writes, k, x, y);
    }
  }

  /** A write that replaced something else than it was computed from leaves out the write it replaced. */
  lemma StaleOmits(writes: seq<Write>, i: nat) returns (j: nat)
    requires Built(writes) && i < |writes| && !UpToDate(writes[i])
    ensures j < i && writes[j].scope == writes[i].scope && j !in writes[i].after.lineage
  {
    var front, scope := writes[..i], writes[i].scope;
    assert Follows(front, writes[i]);
    if Base(writes[i]) != None {
      var k := BaseWrite(writes, i);
      WrittenScope(front, k);
    }
    j := LastWrite(front, scope);
    NotBasedOn(writes, i, j);
  }

  lemma NotBasedOn(writes: seq<Write>, i: nat, j: nat)
    requires Built(writes) && j < i < |writes| && writes[j].scope == writes[i].scope
    requires forall l :: j < l < i ==> writes[l].scope != writes[i].scope
    requires Base(writes[i]) != Some(writes[j].after)
    ensures j !in writes[i].after.lineage
  {
    assert Follows(writes[..i], writes[i]);
    if Base(writes[i]) != None {
      var k := BaseWrite(writes, i);
      if j in writes[k].after.lineage {
        LineageClosed(writes, k, j, j);
      }
    }
  }

  /** One stale write is enough: it, or the write it left out, is missing from the profile, at once and
      ever after. */
  lemma StaleLoses(writes: seq<Write>, i: nat)
    requires Built(writes) && i < |writes| && !UpToDate(writes[i])
    ensures !Lossless(writes)
  {
    var j := StaleOmits(writes, i);
    var scope := writes[i].scope;
    WrittenScope(writes, i);
    var m := LastWrite(writes, scope);
    if i in writes[m].after.lineage {
      LineageClosed(writes, m, i, j);
    }
  }

  lemma BuiltFront(writes: seq<Write>)
    requires Built(writes) && writes != []
    ensures Built(writes[..|writes| - 1]) && Follows(writes[..|writes| - 1], writes[|writes| - 1])
  {
    var front := writes[..|writes| - 1];
    forall i | 0 <= i < |front| ensures Follows(front[..i], front[i]) {
      assert Follows(writes[..i], writes[i]);
      assert front[..i] == writes[..i];
    }
  }

  lemma {:induction false} CurrentKeeps(writes: seq<Write>)
    requires Built(writes) && forall i :: 0 <= i < |writes| ==> UpToDate(writes[i])
    ensures Lossless(writes)
  {
    if writes != [] {
      var front, n := writes[..|writes| - 1], |writes| - 1;
      BuiltFront(writes);
      assert forall i :: 0 <= i < n ==> front[i] == writes[i];
      CurrentKeeps(front);
      forall i | 0 <= i < |writes| ensures i in Lineage(LastOf(writes, writes[i].scope)) {
        if i < n {
          assert i in Lineage(LastOf(front, front[i].scope));
        }
      }
    }
  }

  // ---- the runs ----

  ghost predicate CallKnown(s: State, p: nat)
    requires p < |s.calls|
  {
    match s.calls[p].stage
    case Checking(_, seen) => Left(s.writes, s.calls[p].request.scope, seen.profile)
    case Committing(_, seen) => Left(s.writes, s.calls[p].request.scope, seen.profile)
    case _ => true
  }

  ghost predicate Logged(s: State) {
    && Built(s.writes)
    && (forall scope :: Current(s, scope) == LastOf(s.writes, scope))
    && (forall p :: 0 <= p < |s.calls| ==> CallKnown(s, p))
  }

  lemma MoveLogged(s: State, p: nat, stage: Stage)
    requires Logged(s) && p < |s.calls| && CallKnown(Move(s, p, stage), p)
    ensures Logged(Move(s, p, stage))
  {
    var t := Move(s, p, stage);
    forall scope ensures Current(t, scope) == LastOf(t.writes, scope) {
      assert Current(s, scope) == LastOf(s.writes, scope);
    }
    forall q | 0 <= q < |t.calls| ensures CallKnown(t, q) {
      if q != p { assert CallKnown(s, q); }
    }
  }

  lemma LoadLogged(s: State, p: nat, attempt: nat)
    requires Logged(s) && p < |s.calls|
    ensures Logged(LoadStep(s, p, attempt))
  {
    var scope := s.calls[p].request.scope;
    if LastOf(s.writes, scope) != None {
      var m := LastWrite(s.writes, scope);
    }
    assert Left(s.writes, scope, Current(s, scope));
    MoveLogged(s, p, LoadStep(s, p, attempt).calls[p].stage);
  }

  /** One more write, computed from a profile the log knows. */
  lemma WriteLogged(s: State, t: State, w: Write)
    requires Logged(s) && t.writes == s.writes + [w]
    requires w.before == Current(s, w.scope) && t.profiles == s.profiles[w.scope := w.after]
    requires w.after.lineage == Lineage(Base(w)) + [|s.writes|] && Left(s.writes, w.scope, Base(w))
    ensures Built(t.writes) && forall scope :: Current(t, scope) == LastOf(t.writes, scope)
  {
    BuiltNext(s.writes, w);
    assert t.writes[..|s.writes|] == s.writes;
    forall scope ensures Current(t, scope) == LastOf(t.writes, scope) {
      assert Current(s, scope) == LastOf(s.writes, scope);
    }
  }

  lemma BuiltNext(writes: seq<Write>, w: Write)
    requires Built(writes) && Follows(writes, w)
    ensures Built(writes + [w])
  {
    var all := writes + [w];
    forall i | 0 <= i < |all| ensures Follows(all[..i], all[i]) {
      if i < |writes| {
        assert Follows(writes[..i], writes[i]);
        assert all[..i] == writes[..i];
      } else {
        assert all[..i] == writes;
      }
    }
  }

  lemma StillKnown(s: State, t: State, p: nat)
    requires p < |s.calls| && p < |t.calls| && t.calls[p] == s.calls[p] && CallKnown(s, p)
    requires s.writes <= t.writes
    ensures CallKnown(t, p)
  {
    forall scope, seen | Left(s.writes, scope, seen) ensures Left(t.writes, scope, seen) {
      if seen != None {
        var k :| 0 <= k < |s.writes| && s.writes[k].scope == scope && Some(s.writes[k].after) == seen;
        assert t.writes[k] == s.writes[k];
      }
    }
  }

  lemma CommitLogged(s: State, p: nat, attempt: nat, seen: Snapshot, event: string)
    requires Logged(s) && p < |s.calls| && s.calls[p].stage == Committing(attempt, seen)
    ensures Logged(CommitStep(s, p, attempt, seen, event))
  {
    var t := CommitStep(s, p, attempt, seen, event);
    CommitShape(s, p, attempt, seen, event);
    assert CallKnown(s, p);
    if OneWrite(s, t, p) {
      OneWriteLogged(s, t, p);
    } else {
      CommitMoves(s, p, attempt, seen, event);
      MoveLogged(s, p, t.calls[p].stage);
    }
  }

  lemma OneWriteLogged(s: State, t: State, p: nat)
    requires Logged(s) && p < |s.calls| && OneWrite(s, t, p)
    ensures Logged(t)
  {
    var w := t.writes[|s.writes|];
    assert t.writes == s.writes + [w];
    assert CallKnown(s, p);
    WriteLogged(s, t, w);
    forall q | 0 <= q < |t.calls| ensures CallKnown(t, q) {
      if q != p { StillKnown(s, t, q); }
    }
  }

  /** A commit that writes nothing moves its call to a stage that holds no snapshot. */
  lemma CommitMoves(s: State, p: nat, attempt: nat, seen: Snapshot, event: string)
    requires p < |s.calls| && s.calls[p].stage == Committing(attempt, seen)
    requires !OneWrite(s, CommitStep(s, p, attempt, seen, event), p)
    ensures var t := CommitStep(s, p, attempt, seen, event);
      p < |t.calls| && t == Move(s, p, t.calls[p].stage) && (t.calls[p].stage.Loading? || t.calls[p].stage == Failed
        || t.calls[p].stage == Skipped || t.calls[p].stage == Applied)
  {
    CommitShape(s, p, attempt, seen, event);
  }

  lemma StepLogged(s: State, a: Action)
    requires Logged(s)
    ensures Logged(Step(s, a))
  {
    match a
    case Arrive(request) => ArriveLogged(s, request);
    case PutProfile(scope, version) => PutLogged(s, scope, version);
    case Abort(p) => if IsRunning(s, p) { MoveLogged(s, p, Failed); }
    case Advance(p, proceed, event) => if p < |s.calls| { AdvanceLogged(s, p, proceed, event); }
  }

  lemma ArriveLogged(s: State, request: Request)
    requires Logged(s)
    ensures Logged(Step(s, Arrive(request)))
  {
    var t := Step(s, Arrive(request));
    forall q | 0 <= q < |t.calls| ensures CallKnown(t, q) {
      if q < |s.calls| { StillKnown(s, t, q); }
    }
    forall scope ensures Current(t, scope) == LastOf(t.writes, scope) {
      assert Current(s, scope) == LastOf(s.writes, scope);
    }
  }

  lemma CheckLogged(s: State, p: nat, attempt: nat, seen: Snapshot, proceed: bool)
    requires Logged(s) && p < |s.calls| && s.calls[p].stage == Checking(attempt, seen)
    ensures Logged(CheckStep(s, p, attempt, seen, proceed))
  {
    assert CallKnown(s, p);
    MoveLogged(s, p, CheckStep(s, p, attempt, seen, proceed).calls[p].stage);
  }

  lemma AdvanceLogged(s: State, p: nat, proceed: bool, event: string)
    requires Logged(s) && p < |s.calls|
    ensures Logged(Step(s, Advance(p, proceed, event)))
  {
    assert CallKnown(s, p);
    match s.calls[p].stage
    case Loading(attempt) => LoadLogged(s, p, attempt);
    case Checking(attempt, seen) => CheckLogged(s, p, attempt, seen, proceed);
    case Committing(attempt, seen) => CommitLogged(s, p, attempt, seen, event);
    case _ =>
  }

  lemma PutLogged(s: State, scope: string, version: int)
    requires Logged(s)
    ensures Logged(Step(s, PutProfile(scope, version)))
  {
    var t := Step(s, PutProfile(scope, version));
    var w := t.writes[|s.writes|];
    WriteLogged(s, t, w);
    forall q | 0 <= q < |t.calls| ensures CallKnown(t, q) {
      StillKnown(s, t, q);
    }
  }

  lemma {:induction false} ExecLogged(s: State, actions: seq<Action>)
    requires Logged(s)
    ensures Logged(Exec(s, actions))
    decreases |actions|
  {
    if actions != [] {
      StepLogged(s, actions[0]);
      ExecLogged(Step(s, actions[0]), actions[1..]);
    }
  }

  // ---- the promises ----

  /** The stored profiles contain every write of their scope. */
  ghost predicate NothingLost(s: State) {
    forall i :: 0 <= i < |s.writes| ==> i in Lineage(Current(s, s.writes[i].scope))
  }

  /** Exactly when nothing is lost, in every run: when every write so far replaced the profile it was
      computed from. */
  lemma NothingLostIff(actions: seq<Action>)
    ensures var s := Exec(Init(), actions);
      NothingLost(s) <==> forall i :: 0 <= i < |s.writes| ==> UpToDate(s.writes[i])
  {
    var s := Exec(Init(), actions);
    ExecLogged(Init(), actions);
    assert NothingLost(s) <==> Lossless(s.writes) by {
      forall i | 0 <= i < |s.writes| ensures Current(s, s.writes[i].scope) == LastOf(s.writes, s.writes[i].scope) {}
    }
    forall i | 0 <= i < |s.writes| && !UpToDate(s.writes[i]) ensures !Lossless(s.writes) {
      StaleLoses(s.writes, i);
    }
    if forall i :: 0 <= i < |s.writes| ==> UpToDate(s.writes[i]) {
      CurrentKeeps(s.writes);
    }
  }

  /** The write was overtaken, by kind: an unguarded upsert when its scope was written since it read, a put when
      there was a profile, a guarded commit when it found a profile where its caller had read none. */
  predicate Overtaken(w: Write) {
    match w.source
    case Upsert(_, read) => w.before != read.profile
    case Put => w.before != None
    case _ => IsBlind(w)
  }

  /** The same, by the kind of write: in every run nothing is lost exactly when no write was overtaken. */
  lemma NothingLostByKind(actions: seq<Action>)
    ensures var s := Exec(Init(), actions);
      NothingLost(s) <==> forall i :: 0 <= i < |s.writes| ==> !Overtaken(s.writes[i])
  {
    NothingLostIff(actions);
    NoLostUpdateIff(actions);
    var s := Exec(Init(), actions);
    forall i | 0 <= i < |s.writes| ensures UpToDate(s.writes[i]) <==> !Overtaken(s.writes[i]) {
      assert ReplacedWhatWasRead(s, i) <==> !IsBlind(s.writes[i]);
    }
  }

  /** So when every writer is guarded, as in the server, the stored profiles contain every commit. */
  lemma GuardedRunsLoseNothing(actions: seq<Action>)
    requires forall a :: a in actions ==> !a.PutProfile? && (a.Arrive? ==> !a.request.Unguarded?)
    ensures NothingLost(Exec(Init(), actions))
  {
    NothingLostByKind(actions);
    ExecInv(Init(), actions);
    ExecGuarded(Init(), actions);
    var s := Exec(Init(), actions);
    forall i | 0 <= i < |s.writes| ensures !Overtaken(s.writes[i]) {
      assert SourceOK(s, i) && CommitOK(s, i);
    }
  }

  ghost predicate GuardedOnly(s: State) {
    && (forall p :: 0 <= p < |s.calls| ==> !s.calls[p].request.Unguarded?)
    && (forall i :: 0 <= i < |s.writes| ==> s.writes[i].source != Put)
  }

  lemma {:induction false} ExecGuarded(s: State, actions: seq<Action>)
    requires GuardedOnly(s)
    requires forall a :: a in actions ==> !a.PutProfile? && (a.Arrive? ==> !a.request.Unguarded?)
    ensures GuardedOnly(Exec(s, actions))
    decreases |actions|
  {
    if actions != [] {
      assert actions[0] in actions;
      assert forall a :: a in actions[1..] ==> a in actions;
      StepGuarded(s, actions[0]);
      ExecGuarded(Step(s, actions[0]), actions[1..]);
    }
  }

  lemma StepGuarded(s: State, a: Action)
    requires GuardedOnly(s) && !a.PutProfile? && (a.Arrive? ==> !a.request.Unguarded?)
    ensures GuardedOnly(Step(s, a))
  {
    match a
    case Arrive(_) =>
    case Abort(p) => if IsRunning(s, p) { MoveGuarded(s, p, Failed); }
    case Advance(p, proceed, event) =>
      if p < |s.calls| {
        match s.calls[p].stage {
          case Loading(attempt) => MoveGuarded(s, p, LoadStep(s, p, attempt).calls[p].stage);
          case Checking(attempt, seen) => MoveGuarded(s, p, CheckStep(s, p, attempt, seen, proceed).calls[p].stage);
          case Committing(attempt, seen) =>
            CommitShape(s, p, attempt, seen, event);
            CommitGuarded(s, CommitStep(s, p, attempt, seen, event), p);
          case _ =>
        }
      }
  }

  lemma MoveGuarded(s: State, p: nat, stage: Stage)
    requires GuardedOnly(s) && p < |s.calls|
    ensures GuardedOnly(Move(s, p, stage))
  {
  }

  lemma CommitGuarded(s: State, t: State, p: nat)
    requires GuardedOnly(s) && p < |s.calls|
    requires OneWrite(s, t, p) || (t == s.(calls := t.calls) && OnlyMoves(s, t, p))
    ensures GuardedOnly(t)
  {
    assert forall i :: 0 <= i < |s.writes| ==> t.writes[..|s.writes|][i] == t.writes[i];
  }

  /** An unguarded upsert that was overtaken loses a write for good, from every reachable state and however
      the run goes on. */
  lemma StaleUpsertNeverRecovers(before: seq<Action>, p: nat, proceed: bool, event: string, later: seq<Action>)
    requires var s := Exec(Init(), before);
      && p < |s.calls| && s.calls[p].request.Unguarded? && s.calls[p].stage.Committing?
      && Current(s, s.calls[p].request.scope) != s.calls[p].stage.seen.profile
    ensures !NothingLost(Exec(Init(), before + [Advance(p, proceed, event)] + later))
  {
    var s, a := Exec(Init(), before), Advance(p, proceed, event);
    var t := Step(s, a);
    ExecConcat(Init(), before + [a], later);
    ExecConcat(Init(), before, [a]);
    ExecCons(s, a, []);
    assert [a] + [] == [a];
    WritesGrow(t, later);
    NothingLostIff(before + [a] + later);
    var n, u := |s.writes|, Exec(t, later);
    assert t.writes[n].before == Current(s, s.calls[p].request.scope);
    assert Base(t.writes[n]) == s.calls[p].stage.seen.profile;
    assert u.writes[n] == t.writes[n];
  }

  lemma {:induction false} WritesGrow(s: State, actions: seq<Action>)
    ensures s.writes <= Exec(s, actions).writes
    decreases |actions|
  {
    if actions != [] {
      StepWrites(s, actions[0]);
      WritesGrow(Step(s, actions[0]), actions[1..]);
    }
  }

  /** With an unguarded writer an applied completion can be lost for good: the worker read before the
      commit and upserts after it, so the stored profile lacks the commit's contribution while its
      marker makes every later refresh for that completion a no-op. */
  lemma UnguardedWriteDiscards()
    ensures exists actions, key :: PutsNothing(actions) && Discarded(Exec(Init(), actions), "w", key)
  {
    var refresh := SampleRefresh();
    DiscardingRun(refresh);
    assert PutsNothing(DiscardingActions(refresh));
  }

  /** The worker reads, the refresh commits, the worker upserts. */
  function DiscardingActions(refresh: Request): seq<Action> {
    var go0, go1 := Advance(0, true, "e"), Advance(1, true, "e");
    [Arrive(Unguarded("w")), Arrive(refresh), go0, go1, go1, go1, go0]
  }

  lemma DiscardingRun(refresh: Request)
    requires HasCompletion(refresh) && refresh.Refresh? && refresh.scope == "w" && Complete(refresh)
    requires Stamped(CompletionOf(refresh, "e"), 0).Some?
    ensures Discarded(Exec(Init(), DiscardingActions(refresh)), "w", MarkerKey(refresh))
  {
    var go0, go1 := Advance(0, true, "e"), Advance(1, true, "e");
    LoadBoth(refresh);
    CommitThenUpsert(refresh);
    ExecSeven(Arrive(Unguarded("w")), Arrive(refresh), go0, go1, BothLoading(refresh), BothCommitting(refresh));
  }

  lemma LoadBoth(refresh: Request)
    requires HasCompletion(refresh) && refresh.Refresh? && refresh.scope == "w" && Complete(refresh)
    ensures var go0, go1 := Advance(0, true, "e"), Advance(1, true, "e");
      && Step(Step(Init(), Arrive(Unguarded("w"))), Arrive(refresh)) == BothLoading(refresh)
      && Step(Step(Step(BothLoading(refresh), go0), go1), go1) == BothCommitting(refresh)
  {
    var go0, go1 := Advance(0, true, "e"), Advance(1, true, "e");
    assert Step(BothLoading(refresh), go0).calls
        == [Call(Unguarded("w"), Committing(1, Snapshot(None, 0))), Call(refresh, Loading(1))];
    assert Step(Step(BothLoading(refresh), go0), go1).calls
        == [Call(Unguarded("w"), Committing(1, Snapshot(None, 0))), Call(refresh, Checking(1, Snapshot(None, 0)))];
  }

  lemma ExecSeven(a0: Action, a1: Action, go0: Action, go1: Action, s2: State, s5: State)
    requires Step(Step(Init(), a0), a1) == s2
    requires Step(Step(Step(s2, go0), go1), go1) == s5
    ensures Exec(Init(), [a0, a1, go0, go1, go1, go1, go0]) == Step(Step(s5, go1), go0)
  {
    ExecCons(Init(), a0, [a1, go0, go1, go1, go1, go0]);
    ExecCons(Step(Init(), a0), a1, [go0, go1, go1, go1, go0]);
    ExecCons(s2, go0, [go1, go1, go1, go0]);
    ExecCons(Step(s2, go0), go1, [go1, go1, go0]);
    ExecCons(Step(Step(s2, go0), go1), go1, [go1, go0]);
    ExecCons(s5, go1, [go0]);
    ExecCons(Step(s5, go1), go0, []);
  }

  predicate PutsNothing(actions: seq<Action>) {
    forall a :: a in actions ==> !a.PutProfile?
  }

  ghost predicate Discarded(s: State, scope: string, key: string) {
    key in s.completions && key in s.markedBy && s.markedBy[key] !in Lineage(Current(s, scope))
  }

  function BothLoading(refresh: Request): State {
    State(map[], map[], [Call(Unguarded("w"), Loading(1)), Call(refresh, Loading(1))], [], map[])
  }

  function BothCommitting(refresh: Request): State {
    var none := Snapshot(None, 0);
    BothLoading(refresh).(calls := [Call(Unguarded("w"), Committing(1, none)), Call(refresh, Committing(1, none))])
  }

  lemma SampleRefresh() returns (refresh: Request)
    ensures refresh.Refresh? && refresh.scope == "w"
    ensures HasCompletion(refresh) && Complete(refresh)
    ensures Stamped(CompletionOf(refresh, "e"), 0).Some?
  {
    refresh := Refresh("w", "s", "p", "x", "", "r");
    TrimSolid("s");
    TrimSolid("p");
    TrimSolid("x");
    TrimSolid("e");
    TrimSolid("r");
    TrimSolid("");
  }

  lemma CommitThenUpsert(refresh: Request)
    requires HasCompletion(refresh) && refresh.Refresh? && refresh.scope == "w"
    requires Stamped(CompletionOf(refresh, "e"), 0).Some?
    ensures var after := Step(Step(BothCommitting(refresh), Advance(1, true, "e")), Advance(0, true, "e"));
      Discarded(after, "w", MarkerKey(refresh))
  {
    StampedKey(refresh, "e", 0);
    var key, c := MarkerKey(refresh), Stamped(CompletionOf(refresh, "e"), 0).value;
    var s5 := BothCommitting(refresh);
    var s6 := Step(s5, Advance(1, true, "e"));
    assert s6.markedBy == map[key := 0] && key in s6.completions;
    var s7 := Step(s6, Advance(0, true, "e"));
    assert s7.profiles["w"].lineage == [1];
  }
}
