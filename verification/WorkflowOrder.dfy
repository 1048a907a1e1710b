/** How an operation's status moves. Each append computes the next status from the operation it read
    before; the theorems say exactly when that takes the status back. */
module WorkflowOrder {
  import opened Options
  import opened WorkflowStore
  import opened Workflow

  /** Queued before running before terminal. */
  function Height(status: Status): nat {
    if IsTerminal(status) then 2 else if status == Running then 1 else 0
  }

  // ---- what a pending append knows ----

  /** What the append read is what is stored now, or the operation has moved on since. */
  ghost predicate SeenOK(s: State, p: nat)
    requires p < |s.calls|
  {
    s.calls[p].stage.Appending? ==>
      var r, seen := s.calls[p].request, s.calls[p].stage.seen;
      && s.calls[p].stage.status == NextStatus(seen.status, EventStatus(r), Terminating(r))
      && r.operationID in s.operations
      && seen.lastSequence <= s.operations[r.operationID].lastSequence
      && (seen.lastSequence == s.operations[r.operationID].lastSequence ==> seen == s.operations[r.operationID])
  }

  ghost predicate AllSeenOK(s: State) {
    forall p :: 0 <= p < |s.calls| ==> SeenOK(s, p)
  }

  /** Operations stay, and change only together with their sequence number. */
  ghost predicate Grows(s: State, t: State) {
    forall id :: id in s.operations ==>
      && id in t.operations
      && s.operations[id].lastSequence <= t.operations[id].lastSequence
      && (s.operations[id].lastSequence == t.operations[id].lastSequence ==> t.operations[id] == s.operations[id])
  }

  lemma StillSeen(s: State, t: State, p: nat)
    requires p < |s.calls| && p < |t.calls| && t.calls[p] == s.calls[p] && SeenOK(s, p) && Grows(s, t)
    ensures SeenOK(t, p)
  {
  }

  lemma MoveSeen(s: State, p: nat, stage: Stage)
    requires AllSeenOK(s) && p < |s.calls| && SeenOK(Move(s, p, stage), p)
    ensures AllSeenOK(Move(s, p, stage))
  {
    var t := Move(s, p, stage);
    forall q | 0 <= q < |t.calls| ensures SeenOK(t, q) {
      if q != p { StillSeen(s, t, q); }
    }
  }

  lemma AppendSeen(s: State, p: nat)
    requires AllSeenOK(s) && p < |s.calls| && s.calls[p].stage.Appending?
    ensures AllSeenOK(AppendStep(s, p, s.calls[p].stage.event, s.calls[p].stage.status))
  {
    var t := AppendStep(s, p, s.calls[p].stage.event, s.calls[p].stage.status);
    assert Grows(s, t);
    forall q | 0 <= q < |t.calls| ensures SeenOK(t, q) {
      if q != p { StillSeen(s, t, q); }
    }
  }

  lemma StepSeen(s: State, table: StepTable, a: Action)
    requires AllSeenOK(s)
    ensures AllSeenOK(Step(s, table, a))
  {
    match a
    case Create(_, _, _, _) => CreateSeen(s, table, a);
    case Arrive(_) =>
      var t := Step(s, table, a);
      forall q | 0 <= q < |t.calls| ensures SeenOK(t, q) {
        if q < |s.calls| { StillSeen(s, t, q); }
      }
    case Abort(p) => if p < |s.calls| && s.calls[p].stage != Done { MoveSeen(s, p, Refused); }
    case Advance(p, now) =>
      if p < |s.calls| {
        match s.calls[p].stage {
          case Probing => MoveSeen(s, p, ProbeStep(s, p).calls[p].stage);
          case Listing => MoveSeen(s, p, ListStep(s, p).calls[p].stage);
          case Reading(step) => MoveSeen(s, p, ReadStep(s, table, p, step, now).calls[p].stage);
          case Appending(_, _, _) => AppendSeen(s, p);
          case _ =>
        }
      }
  }

  lemma CreateSeen(s: State, table: StepTable, a: Action)
    requires AllSeenOK(s) && a.Create?
    ensures AllSeenOK(Step(s, table, a))
  {
    var t := Step(s, table, a);
    forall q | 0 <= q < |t.calls| ensures SeenOK(t, q) {
      StillSeen(s, t, q);
    }
  }

  lemma {:induction false} ExecSeen(s: State, table: StepTable, actions: seq<Action>)
    requires Inv(s) && AllSeenOK(s)
    ensures Inv(Exec(s, table, actions)) && AllSeenOK(Exec(s, table, actions))
    decreases |actions|
  {
    if actions != [] {
      StepInv(s, table, actions[0]);
      StepSeen(s, table, actions[0]);
      ExecSeen(Step(s, table, actions[0]), table, actions[1..]);
    }
  }

  // ---- when the status falls back ----

  /** The action lets an append of this operation land. */
  predicate Lands(s: State, a: Action, id: string) {
    && a.Advance? && a.caller < |s.calls| && s.calls[a.caller].stage.Appending?
    && s.calls[a.caller].request.operationID == id
    && Found(s.operations, s.calls[a.caller].request.scope, id).Ok?
    && !IsTerminal(s.operations[id].status)
  }

  /** It lands, it neither terminates nor reports that the step runs, it read the operation queued, and the
      operation is running by now. */
  predicate LandsStale(s: State, a: Action, id: string) {
    && Lands(s, a, id) && s.operations[id].status == Running
    && var call := s.calls[a.caller];
    && !Terminating(call.request) && EventStatus(call.request) != Running
    && call.stage.seen.status == Queued
  }

  /** What one step does to one operation. */
  lemma OtherSteps(s: State, table: StepTable, a: Action, id: string)
    requires id in s.operations && !Lands(s, a, id)
    ensures id in Step(s, table, a).operations && Step(s, table, a).operations[id] == s.operations[id]
  {
  }

  lemma LandingStep(s: State, table: StepTable, a: Action, id: string)
    requires AllSeenOK(s) && id in s.operations && Lands(s, a, id)
    ensures var call, t := s.calls[a.caller], Step(s, table, a);
      && id in t.operations
      && t.operations[id].status
         == NextStatus(call.stage.seen.status, EventStatus(call.request), Terminating(call.request))
      && t.operations[id].lastSequence == s.operations[id].lastSequence + 1
  {
    assert SeenOK(s, a.caller);
  }

  /** Exactly when a status falls back: for every reachable state, action and operation, a running
      operation becomes queued if and only if a stale append that neither terminates nor reports running
      lands on it. */
  lemma FallsBackIff(table: StepTable, actions: seq<Action>, a: Action, id: string)
    requires id in Exec(Init(), table, actions).operations
    ensures var s := Exec(Init(), table, actions);
      var t := Step(s, table, a);
      && id in t.operations
      && (s.operations[id].status == Running && t.operations[id].status == Queued <==> LandsStale(s, a, id))
  {
    var s := Exec(Init(), table, actions);
    ExecSeen(Init(), table, actions);
    if Lands(s, a, id) {
      LandingStep(s, table, a, id);
      NextHeights(s, a, id);
    } else {
      OtherSteps(s, table, a, id);
    }
  }

  lemma NextHeights(s: State, a: Action, id: string)
    requires Inv(s) && AllSeenOK(s) && id in s.operations && Lands(s, a, id)
    ensures var call := s.calls[a.caller];
      var seen := call.stage.seen.status;
      var next := NextStatus(seen, EventStatus(call.request), Terminating(call.request));
      && (next == Queued <==> seen == Queued && !Terminating(call.request) && EventStatus(call.request) != Running)
      && Height(next) >= Height(seen) && !next.Invalid? && !s.operations[id].status.Invalid?
  {
    assert CallOK(s, a.caller) && SeenOK(s, a.caller);
  }

  /** It is the only way for an operation to go back at all. */
  lemma LowersIff(table: StepTable, actions: seq<Action>, a: Action, id: string)
    requires id in Exec(Init(), table, actions).operations
    ensures var s := Exec(Init(), table, actions);
      var t := Step(s, table, a);
      && id in t.operations
      && (Height(t.operations[id].status) < Height(s.operations[id].status) <==> LandsStale(s, a, id))
  {
    var s := Exec(Init(), table, actions);
    ExecSeen(Init(), table, actions);
    if Lands(s, a, id) {
      LandingStep(s, table, a, id);
      NextHeights(s, a, id);
    } else {
      OtherSteps(s, table, a, id);
    }
  }

  /** In this run every append of the operation lands on what it read: no other one landed in between. */
  ghost predicate Undisturbed(s: State, table: StepTable, actions: seq<Action>, id: string)
    decreases |actions|
  {
    actions != [] ==>
      && (Lands(s, actions[0], id) ==>
            s.calls[actions[0].caller].stage.seen.lastSequence == s.operations[id].lastSequence)
      && Undisturbed(Step(s, table, actions[0]), table, actions[1..], id)
  }

  /** Without such races the status only rises. */
  lemma UndisturbedRises(table: StepTable, before: seq<Action>, later: seq<Action>, id: string)
    requires id in Exec(Init(), table, before).operations
    requires Undisturbed(Exec(Init(), table, before), table, later, id)
    ensures var s := Exec(Init(), table, before);
      var t := Exec(s, table, later);
      id in t.operations && Height(s.operations[id].status) <= Height(t.operations[id].status)
  {
    ExecSeen(Init(), table, before);
    ExecRises(Exec(Init(), table, before), table, later, id);
  }

  lemma {:induction false} ExecRises(s: State, table: StepTable, actions: seq<Action>, id: string)
    requires Inv(s) && AllSeenOK(s) && id in s.operations && Undisturbed(s, table, actions, id)
    ensures var t := Exec(s, table, actions);
      id in t.operations && Height(s.operations[id].status) <= Height(t.operations[id].status)
    decreases |actions|
  {
    if actions != [] {
      var a, mid := actions[0], Step(s, table, actions[0]);
      StepInv(s, table, a);
      StepSeen(s, table, a);
      if Lands(s, a, id) {
        assert SeenOK(s, a.caller);
        LandingStep(s, table, a, id);
        NextHeights(s, a, id);
      } else {
        OtherSteps(s, table, a, id);
      }
      ExecRises(mid, table, actions[1..], id);
    }
  }

  /** Only termination is final. Below it, a stale reading can move an operation backwards: an append that
      read it queued and lands after another append made it running makes it queued again. */
  lemma StatusCanFallBack()
    ensures exists table, before, after ::
      var s := Exec(Init(), table, before);
      "op" in s.operations && s.operations["op"].status == Running
      && "op" in Exec(s, table, [after]).operations && Exec(s, table, [after]).operations["op"].status == Queued
  {
    var table: StepTable := map["k" := map["a" := "A"]];
    var slow := Append("w", "op", "a", Queued, map[], false);
    var quick := Append("w", "op", "a", Running, map[], false);
    var go0, go1 := Advance(0, 1), Advance(1, 1);
    var op := Operation("op", "w", "k", Queued, 0, 0, 0, None);
    var s0 := State(map["op" := op], map[], []);
    var s2 := State(map["op" := op], map[], [Call(slow, Reading("a")), Call(quick, Reading("a"))]);
    var event := Event("", 0, "a", "A", Queued, 1, map[]);
    var s4 := State(map["op" := op], map[], [Call(slow, Appending(event, Queued, op)),
                                               Call(quick, Appending(event.(status := Running), Running, op))]);
    var s5 := Step(s4, table, go1);
    ExecCons(Init(), table, Create("op", "w", "k", 0), [Arrive(slow), Arrive(quick), go0, go1, go1]);
    assert Step(Init(), table, Create("op", "w", "k", 0)) == s0;
    ExecCons(s0, table, Arrive(slow), [Arrive(quick), go0, go1, go1]);
    ExecCons(Step(s0, table, Arrive(slow)), table, Arrive(quick), [go0, go1, go1]);
    assert Step(Step(s0, table, Arrive(slow)), table, Arrive(quick)) == s2;
    ExecCons(s2, table, go0, [go1, go1]);
    ExecCons(Step(s2, table, go0), table, go1, [go1]);
    assert Step(Step(s2, table, go0), table, go1) == s4;
    ExecCons(s4, table, go1, []);
    ExecCons(s5, table, go0, []);
    var before := [Create("op", "w", "k", 0), Arrive(slow), Arrive(quick), go0, go1, go1];
    assert Exec(Init(), table, before) == s5;
    assert Exec(s5, table, [go0]) == Step(s5, table, go0);
  }
}
