/** What the log of an operation says about the calls that wrote it: one entry for each call that succeeded,
    in the order in which they landed, with that call's own report. */
module WorkflowRecord {
  import opened Options
  import opened WorkflowStore
  import opened Workflow
  import opened WorkflowOrder
  import opened WorkflowSteps
  import Sequences
  import T = Text

  /** History variables: when each call read its operation, and which calls landed on each operation. */
  datatype History = History(readAt: map<nat, int>, landed: map<string, seq<nat>>)

  function Landed(h: History, id: string): seq<nat> {
    if id in h.landed then h.landed[id] else []
  }

  function HistoryNext(s: State, a: Action, h: History): History {
    if !a.Advance? || a.caller >= |s.calls| then h
    else if s.calls[a.caller].stage.Reading? then h.(readAt := h.readAt[a.caller := a.now])
    else
      var id := s.calls[a.caller].request.operationID;
      if Lands(s, a, id) then h.(landed := h.landed[id := Landed(h, id) + [a.caller]]) else h
  }

  function HistoryOf(s: State, table: StepTable, actions: seq<Action>, h: History): History
    decreases |actions|
  {
    if actions == [] then h
    else HistoryOf(Step(s, table, actions[0]), table, actions[1..], HistoryNext(s, actions[0], h))
  }

  // ---- what an entry says ----

  /** Only known keys, no text above 80 bytes, and nothing but text, flags and numbers. */
  ghost predicate Plain(metadata: Metadata) {
    forall key :: key in metadata ==>
      && key in {"attempt", "max_attempts", "question_count", "event_count", "changed", "skipped", "reason_code",
                 "retryable"}
      && match metadata[key]
         case Text(text) => T.ByteLength(text) <= 80
         case Flag(_) => true
         case Number(_) => true
         case Structured => false
  }

  lemma SanitizedIff(metadata: Metadata)
    ensures Sanitized(metadata) == if Plain(metadata) then Some(metadata) else None
  {
  }

  const CANCELLED: Metadata :=
    map["reason_code" := Text("cancelled"), "retryable" := Flag(true), "terminal" := Flag(true)]

  /** The report of this request, for an operation of this kind. */
  ghost predicate Reports(table: StepTable, kind: string, r: Request, e: Event) {
    && kind in table && e.stepID in table[kind] && e.stepLabel == table[kind][e.stepID]
    && match r
       case Append(_, _, _, status, metadata, terminal) =>
         && e.status == status && !status.Invalid? && Plain(metadata)
         && e.metadata == if terminal then metadata["terminal" := Flag(true)] else metadata
       case Cancel(_, _) => e.status == Failed && e.metadata == CANCELLED
  }

  /** The step is the one the request names; a cancellation takes the active step of the first 500 events that
      the log held at some time before. */
  ghost predicate Concerns(log: seq<Event>, r: Request, step: string) {
    match r
    case Append(_, _, stepID, _, _, _) => step == stepID
    case Cancel(_, _) => exists n :: 0 <= n <= |log| && step == FirstActive(Sequences.FirstOf(log[..n], 500))
  }

  /** Entry i was written by this call, with the time at which it read the operation. */
  ghost predicate WrittenBy(s: State, table: StepTable, h: History, id: string, i: nat, p: nat)
    requires i < |EventsOf(s.events, id)|
  {
    var log := EventsOf(s.events, id);
    && p < |s.calls| && s.calls[p].stage == Done
    && id in s.operations && s.calls[p].request.operationID == id && s.calls[p].request.scope == s.operations[id].scope
    && Concerns(log[..i], s.calls[p].request, log[i].stepID)
    && Reports(table, s.operations[id].kind, s.calls[p].request, log[i])
    && p in h.readAt && log[i].timestamp == h.readAt[p]
  }

  ghost predicate LogTold(s: State, table: StepTable, h: History, id: string) {
    && |Landed(h, id)| == |EventsOf(s.events, id)|
    && (forall i :: 0 <= i < |Landed(h, id)| ==> WrittenBy(s, table, h, id, i, Landed(h, id)[i]))
    && (forall i, j :: 0 <= i < j < |Landed(h, id)| ==> Landed(h, id)[i] != Landed(h, id)[j])
  }

  ghost predicate CallTold(s: State, table: StepTable, h: History, p: nat)
    requires p < |s.calls|
  {
    var r := s.calls[p].request;
    var log := EventsOf(s.events, r.operationID);
    match s.calls[p].stage
    case Probing => r.Cancel?
    case Listing => r.Cancel?
    case Reading(step) => Concerns(log, r, step)
    case Appending(event, _, _) =>
      && r.operationID in s.operations && r.scope == s.operations[r.operationID].scope
      && Concerns(log, r, event.stepID)
      && Reports(table, s.operations[r.operationID].kind, r, event)
      && p in h.readAt && event.timestamp == h.readAt[p]
    case Done => p in Landed(h, r.operationID)
    case Refused => true
  }

  ghost predicate Told(s: State, table: StepTable, h: History) {
    && (forall id :: LogTold(s, table, h, id))
    && (forall p :: 0 <= p < |s.calls| ==> CallTold(s, table, h, p))
  }

  // ---- every step keeps it ----

  lemma StillConcerns(log: seq<Event>, more: seq<Event>, r: Request, step: string)
    requires Concerns(log, r, step) && log <= more
    ensures Concerns(more, r, step)
  {
    if r.Cancel? {
      var n :| 0 <= n <= |log| && step == FirstActive(Sequences.FirstOf(log[..n], 500));
      assert more[..n] == log[..n];
    }
  }

  /** Operations stay what they are. */
  ghost predicate KindsStay(s: State, t: State) {
    forall id :: id in s.operations ==>
      id in t.operations && t.operations[id].kind == s.operations[id].kind
      && t.operations[id].scope == s.operations[id].scope
  }

  /** One call moves without writing. */
  ghost predicate Quiet(s: State, t: State, p: nat) {
    && t.operations == s.operations && t.events == s.events
    && p < |s.calls| == |t.calls| && t.calls[p].request == s.calls[p].request && s.calls[p].stage != Done
    && forall q :: 0 <= q < |s.calls| && q != p ==> t.calls[q] == s.calls[q]
  }

  lemma QuietTold(s: State, t: State, table: StepTable, h: History, k: History, p: nat)
    requires Told(s, table, h) && Quiet(s, t, p) && CallTold(t, table, k, p)
    requires k.landed == h.landed
    requires forall q :: q in h.readAt && q != p ==> q in k.readAt && k.readAt[q] == h.readAt[q]
    ensures Told(t, table, k)
  {
    forall id ensures LogTold(t, table, k, id) {
      assert LogTold(s, table, h, id);
      forall i | 0 <= i < |Landed(k, id)| ensures WrittenBy(t, table, k, id, i, Landed(k, id)[i]) {
        assert WrittenBy(s, table, h, id, i, Landed(h, id)[i]);
      }
    }
    forall q | 0 <= q < |t.calls| ensures CallTold(t, table, k, q) {
      assert q != p ==> CallTold(s, table, h, q);
    }
  }

  /** The operations there were, and nothing else, are as they were; calls may have arrived. */
  lemma ArrivalTold(s: State, table: StepTable, a: Action, h: History)
    requires Inv(s) && Told(s, table, h) && (a.Create? || a.Arrive?)
    ensures Told(Step(s, table, a), table, h)
  {
    var t := Step(s, table, a);
    assert KindsStay(s, t);
    forall id ensures LogTold(t, table, h, id) {
      assert LogTold(s, table, h, id);
      forall i | 0 <= i < |Landed(h, id)| ensures WrittenBy(t, table, h, id, i, Landed(h, id)[i]) {
        assert WrittenBy(s, table, h, id, i, Landed(h, id)[i]);
      }
    }
    forall q | 0 <= q < |t.calls| ensures CallTold(t, table, h, q) {
      if q < |s.calls| { assert CallTold(s, table, h, q); }
    }
  }

  lemma ListTold(s: State, table: StepTable, p: nat, h: History)
    requires p < |s.calls| && s.calls[p].stage == Listing && s.calls[p].request.Cancel?
    ensures CallTold(ListStep(s, p), table, h, p)
  {
    var log := EventsOf(s.events, s.calls[p].request.operationID);
    assert log[..|log|] == log;
    assert Page(log, 0, 500) == Sequences.FirstOf(log, 500);
  }

  lemma ReadTold(s: State, table: StepTable, p: nat, step: string, now: int, h: History)
    requires p < |s.calls| && s.calls[p].stage == Reading(step) && CallTold(s, table, h, p)
    ensures CallTold(ReadStep(s, table, p, step, now), table, h.(readAt := h.readAt[p := now]), p)
  {
    var r := s.calls[p].request;
    SanitizedIff(RequestMetadata(r));
    if r.Cancel? {
      assert RequestMetadata(r)[TERMINAL_KEY := Flag(true)] == CANCELLED;
    }
  }

  lemma LandTold(s: State, table: StepTable, a: Action, h: History)
    requires Inv(s) && Told(s, table, h) && a.Advance? && a.caller < |s.calls|
    requires Lands(s, a, s.calls[a.caller].request.operationID)
    ensures Told(Step(s, table, a), table, HistoryNext(s, a, h))
  {
    var t, k, p := Step(s, table, a), HistoryNext(s, a, h), a.caller;
    var op := s.calls[p].request.operationID;
    assert CallTold(s, table, h, p) && LogTold(s, table, h, op);
    forall id ensures LogTold(t, table, k, id) {
      assert LogTold(s, table, h, id);
      if id == op { LandedLog(s, table, a, h, id); } else { OtherLog(s, table, a, h, id); }
    }
    forall q | 0 <= q < |t.calls| ensures CallTold(t, table, k, q) {
      assert CallTold(s, table, h, q);
      OtherTold(s, table, a, h, q);
    }
  }

  /** What a landing changes: its own log, its own operation's status, and its own call. */
  lemma LandStep(s: State, table: StepTable, a: Action, id: string)
    requires Inv(s) && a.Advance? && a.caller < |s.calls| && s.calls[a.caller].request.operationID == id
    requires Lands(s, a, id)
    ensures var t, event, log := Step(s, table, a), s.calls[a.caller].stage.event, EventsOf(s.events, id);
      && t.calls == s.calls[a.caller := s.calls[a.caller].(stage := Done)] && KindsStay(s, t)
      && (forall other :: other != id ==> EventsOf(t.events, other) == EventsOf(s.events, other))
      && t.operations.Keys == s.operations.Keys
      && EventsOf(t.events, id) == log + [event.(operationID := id, sequence := |log| + 1)]
  {
    assert LogOK(s.operations[id], EventsOf(s.events, id)) && s.operations[id].id == id;
    LandedState(s, table, a, id);
  }

  lemma LandedState(s: State, table: StepTable, a: Action, id: string)
    requires a.Advance? && a.caller < |s.calls| && s.calls[a.caller].request.operationID == id
    requires Lands(s, a, id)
    requires s.operations[id].id == id && s.operations[id].lastSequence == |EventsOf(s.events, id)|
    ensures var t, event, log := Step(s, table, a), s.calls[a.caller].stage.event, EventsOf(s.events, id);
      && t.calls == s.calls[a.caller := s.calls[a.caller].(stage := Done)] && KindsStay(s, t)
      && (forall other :: other != id ==> EventsOf(t.events, other) == EventsOf(s.events, other))
      && t.operations.Keys == s.operations.Keys
      && EventsOf(t.events, id) == log + [event.(operationID := id, sequence := |log| + 1)]
  {
    LandedOperation(s, table, a, id);
    LandedEvents(s, table, a, id);
  }

  lemma LandedEvents(s: State, table: StepTable, a: Action, id: string)
    requires a.Advance? && a.caller < |s.calls| && s.calls[a.caller].request.operationID == id && Lands(s, a, id)
    ensures var t, op, log := Step(s, table, a), s.operations[id], EventsOf(s.events, id);
      && t.calls == s.calls[a.caller := s.calls[a.caller].(stage := Done)]
      && t.events == s.events[id :=
           log + [s.calls[a.caller].stage.event.(operationID := op.id, sequence := op.lastSequence + 1)]]
  {
  }

  lemma KeepsEntry(s: State, t: State, table: StepTable, h: History, k: History, id: string, i: nat, p: nat)
    requires i < |EventsOf(s.events, id)| && WrittenBy(s, table, h, id, i, p)
    requires EventsOf(s.events, id) <= EventsOf(t.events, id) && KindsStay(s, t) && k.readAt == h.readAt
    requires p < |t.calls| && t.calls[p] == s.calls[p]
    ensures WrittenBy(t, table, k, id, i, p)
  {
    assert EventsOf(t.events, id)[..i] == EventsOf(s.events, id)[..i];
  }

  lemma NewEntry(s: State, table: StepTable, a: Action, h: History, id: string)
    requires Inv(s) && a.Advance? && a.caller < |s.calls| && s.calls[a.caller].request.operationID == id
    requires Lands(s, a, id) && CallTold(s, table, h, a.caller)
    ensures var t, k, i := Step(s, table, a), HistoryNext(s, a, h), |EventsOf(s.events, id)|;
      i < |EventsOf(t.events, id)| && WrittenBy(t, table, k, id, i, a.caller)
  {
    var log := EventsOf(s.events, id);
    LandStep(s, table, a, id);
    assert EventsOf(Step(s, table, a).events, id)[..|log|] == log;
  }

  /** Entries already told stay told, and one more may follow them. */
  lemma LogGrows(s: State, t: State, table: StepTable, h: History, k: History, id: string, p: nat)
    requires LogTold(s, table, h, id) && KindsStay(s, t) && k.readAt == h.readAt
    requires EventsOf(s.events, id) <= EventsOf(t.events, id)
    requires p < |s.calls| == |t.calls| && s.calls[p].stage != Done
    requires forall q :: 0 <= q < |s.calls| && q != p ==> t.calls[q] == s.calls[q]
    requires var i := |EventsOf(s.events, id)|;
      if |EventsOf(t.events, id)| == i then Landed(k, id) == Landed(h, id)
      else |EventsOf(t.events, id)| == i + 1 && Landed(k, id) == Landed(h, id) + [p] && WrittenBy(t, table, k, id, i, p)
    ensures LogTold(t, table, k, id)
  {
    var landed := Landed(h, id);
    forall i | 0 <= i < |landed| ensures landed[i] != p && WrittenBy(t, table, k, id, i, landed[i]) {
      assert WrittenBy(s, table, h, id, i, landed[i]);
      KeepsEntry(s, t, table, h, k, id, i, landed[i]);
    }
  }

  /** The landing adds the call's own entry to the log of its operation. */
  lemma LandedLog(s: State, table: StepTable, a: Action, h: History, id: string)
    requires Inv(s) && a.Advance? && a.caller < |s.calls| && s.calls[a.caller].request.operationID == id
    requires Lands(s, a, id) && CallTold(s, table, h, a.caller) && LogTold(s, table, h, id)
    ensures LogTold(Step(s, table, a), table, HistoryNext(s, a, h), id)
  {
    LandStep(s, table, a, id);
    NewEntry(s, table, a, h, id);
    LogGrows(s, Step(s, table, a), table, h, HistoryNext(s, a, h), id, a.caller);
  }

  lemma OtherLog(s: State, table: StepTable, a: Action, h: History, id: string)
    requires Inv(s) && a.Advance? && a.caller < |s.calls| && s.calls[a.caller].request.operationID != id
    requires Lands(s, a, s.calls[a.caller].request.operationID) && LogTold(s, table, h, id)
    ensures LogTold(Step(s, table, a), table, HistoryNext(s, a, h), id)
  {
    LandStep(s, table, a, s.calls[a.caller].request.operationID);
    LogGrows(s, Step(s, table, a), table, h, HistoryNext(s, a, h), id, a.caller);
  }

  lemma OtherTold(s: State, table: StepTable, a: Action, h: History, q: nat)
    requires Inv(s) && a.Advance? && a.caller < |s.calls| && q < |s.calls|
    requires Lands(s, a, s.calls[a.caller].request.operationID) && CallTold(s, table, h, q)
    ensures q < |Step(s, table, a).calls| && CallTold(Step(s, table, a), table, HistoryNext(s, a, h), q)
  {
    var t, id := Step(s, table, a), s.calls[q].request.operationID;
    LandStep(s, table, a, s.calls[a.caller].request.operationID);
    assert EventsOf(s.events, id) <= EventsOf(t.events, id);
    if q != a.caller {
      match s.calls[q].stage
      case Reading(step) => StillConcerns(EventsOf(s.events, id), EventsOf(t.events, id), s.calls[q].request, step);
      case Appending(event, _, _) =>
        StillConcerns(EventsOf(s.events, id), EventsOf(t.events, id), s.calls[q].request, event.stepID);
      case _ =>
    }
  }

  lemma StepTold(s: State, table: StepTable, a: Action, h: History)
    requires Inv(s) && Told(s, table, h)
    ensures Told(Step(s, table, a), table, HistoryNext(s, a, h))
  {
    match a
    case Create(_, _, _, _) => ArrivalTold(s, table, a, h);
    case Arrive(_) => ArrivalTold(s, table, a, h);
    case Abort(p) => if p < |s.calls| && s.calls[p].stage != Done { QuietTold(s, Step(s, table, a), table, h, h, p); }
    case Advance(p, now) => if p < |s.calls| { AdvanceTold(s, table, p, now, h); }
  }

  lemma AdvanceTold(s: State, table: StepTable, p: nat, now: int, h: History)
    requires Inv(s) && Told(s, table, h) && p < |s.calls|
    ensures Told(Step(s, table, Advance(p, now)), table, HistoryNext(s, Advance(p, now), h))
  {
    if s.calls[p].stage.Appending? {
      AppendTold(s, table, p, now, h);
    } else if s.calls[p].stage.Reading? {
      ReadAdvanceTold(s, table, p, now, h);
    } else if s.calls[p].stage.Probing? || s.calls[p].stage.Listing? {
      LookTold(s, table, p, now, h);
    }
  }

  lemma LookTold(s: State, table: StepTable, p: nat, now: int, h: History)
    requires Told(s, table, h) && p < |s.calls| && (s.calls[p].stage.Probing? || s.calls[p].stage.Listing?)
    ensures Told(Step(s, table, Advance(p, now)), table, h)
  {
    assert CallTold(s, table, h, p);
    if s.calls[p].stage.Listing? { ListTold(s, table, p, h); }
    QuietTold(s, Step(s, table, Advance(p, now)), table, h, h, p);
  }

  lemma ReadAdvanceTold(s: State, table: StepTable, p: nat, now: int, h: History)
    requires Told(s, table, h) && p < |s.calls| && s.calls[p].stage.Reading?
    ensures Told(Step(s, table, Advance(p, now)), table, h.(readAt := h.readAt[p := now]))
  {
    assert CallTold(s, table, h, p);
    ReadTold(s, table, p, s.calls[p].stage.stepID, now, h);
    QuietTold(s, Step(s, table, Advance(p, now)), table, h, h.(readAt := h.readAt[p := now]), p);
  }

  lemma AppendTold(s: State, table: StepTable, p: nat, now: int, h: History)
    requires Inv(s) && Told(s, table, h) && p < |s.calls| && s.calls[p].stage.Appending?
    ensures Told(Step(s, table, Advance(p, now)), table, HistoryNext(s, Advance(p, now), h))
  {
    if Lands(s, Advance(p, now), s.calls[p].request.operationID) {
      LandTold(s, table, Advance(p, now), h);
    } else {
      QuietTold(s, Step(s, table, Advance(p, now)), table, h, h, p);
    }
  }

  lemma {:induction false} ExecTold(s: State, table: StepTable, actions: seq<Action>, h: History)
    requires Inv(s) && Told(s, table, h)
    ensures Inv(Exec(s, table, actions)) && Told(Exec(s, table, actions), table, HistoryOf(s, table, actions, h))
    decreases |actions|
  {
    if actions != [] {
      StepInv(s, table, actions[0]);
      StepTold(s, table, actions[0], h);
      ExecTold(Step(s, table, actions[0]), table, actions[1..], HistoryNext(s, actions[0], h));
    }
  }

  // ---- the promises ----

  function Runs(table: StepTable, actions: seq<Action>): History {
    HistoryOf(Init(), table, actions, History(map[], map[]))
  }

  /** In every run the log of an operation has one entry for each call that landed on it, in that order: with
      the step, status and metadata the call reported, a terminal mark if it terminates, and the time at which
      it read the operation; and a cancellation reports a retryable failure of the step that was active. */
  lemma LogTells(table: StepTable, actions: seq<Action>, id: string)
    ensures LogTold(Exec(Init(), table, actions), table, Runs(table, actions), id)
  {
    ExecTold(Init(), table, actions, History(map[], map[]));
  }

  /** A call is done exactly if it has an entry, and has one entry only. */
  lemma DoneIffLogged(table: StepTable, actions: seq<Action>, p: nat)
    requires p < |Exec(Init(), table, actions).calls|
    ensures var call := Exec(Init(), table, actions).calls[p];
      call.stage == Done <==> p in Landed(Runs(table, actions), call.request.operationID)
  {
    ExecTold(Init(), table, actions, History(map[], map[]));
    var s, h := Exec(Init(), table, actions), Runs(table, actions);
    assert CallTold(s, table, h, p) && LogTold(s, table, h, s.calls[p].request.operationID);
    var landed := Landed(h, s.calls[p].request.operationID);
    if p in landed {
      var i :| 0 <= i < |landed| && landed[i] == p;
      assert WrittenBy(s, table, h, s.calls[p].request.operationID, i, p);
    }
  }

  /** The operation is in the request's scope, its kind has the step, and status and metadata are allowed. */
  ghost predicate Allowed(s: State, table: StepTable, r: Request, step: string) {
    && r.operationID in s.operations && s.operations[r.operationID].scope == r.scope
    && s.operations[r.operationID].kind in table && step in table[s.operations[r.operationID].kind]
    && (r.Append? ==> !r.status.Invalid? && Plain(r.metadata))
  }

  /** A call that reads its operation goes on exactly if all of that holds, and is refused otherwise. */
  lemma ReadDecides(s: State, table: StepTable, p: nat, now: int)
    requires p < |s.calls| && s.calls[p].stage.Reading?
    ensures var r, step, t := s.calls[p].request, s.calls[p].stage.stepID, Step(s, table, Advance(p, now));
      && |t.calls| == |s.calls|
      && if Allowed(s, table, r, step)
         then t.calls[p].stage.Appending? && t.calls[p].stage.seen == s.operations[r.operationID]
         else t.calls[p].stage == Refused
  {
    var r, step := s.calls[p].request, s.calls[p].stage.stepID;
    RequestAllowed(r);
    assert Step(s, table, Advance(p, now)) == ReadStep(s, table, p, step, now);
  }

  lemma RequestAllowed(r: Request)
    ensures !EventStatus(r).Invalid? && Sanitized(RequestMetadata(r)).Some? <==>
      (r.Append? ==> !r.status.Invalid? && Plain(r.metadata))
  {
    SanitizedIff(RequestMetadata(r));
  }

  /** What a landing makes of the status: failed or succeeded if it terminates, running if it reports so and
      read the operation queued, and otherwise what it read. */
  lemma LandedStatus(table: StepTable, actions: seq<Action>, a: Action, id: string)
    requires Lands(Exec(Init(), table, actions), a, id)
    ensures var s := Exec(Init(), table, actions);
      var t, r, read := Step(s, table, a), s.calls[a.caller].request, s.calls[a.caller].stage.seen.status;
      && id in t.operations
      && t.operations[id].status ==
           match r
           case Cancel(_, _) => Failed
           case Append(_, _, _, status, _, terminal) =>
             if terminal then (if status == Failed then Failed else Succeeded)
             else if status == Running && read == Queued then Running else read
  {
    ExecSeen(Init(), table, actions);
    LandingStep(Exec(Init(), table, actions), table, a, id);
  }

  // ---- cancelling ----

  /** A cancellation goes on from its first look exactly for an operation in its scope that has not ended. */
  lemma ProbeDecides(s: State, table: StepTable, p: nat, now: int)
    requires p < |s.calls| && s.calls[p].stage.Probing?
    ensures var id := s.calls[p].request.operationID;
      Step(s, table, Advance(p, now)) == Move(s, p,
        if id in s.operations && s.operations[id].scope == s.calls[p].request.scope
           && s.operations[id].status != Succeeded && s.operations[id].status != Failed
        then Listing else Refused)
  {
  }

  /** The step that a cancellation finds active. */
  function ActiveStep(s: State, id: string): string {
    FirstActive(Sequences.FirstOf(EventsOf(s.events, id), 500))
  }

  ghost predicate Cancellable(s: State, table: StepTable, p: nat) {
    && p < |s.calls| && s.calls[p].request.Cancel? && s.calls[p].stage.Probing?
    && var id := s.calls[p].request.operationID;
    && id in s.operations && s.operations[id].scope == s.calls[p].request.scope
    && s.operations[id].status != Succeeded && s.operations[id].status != Failed
    && s.operations[id].kind in table && ActiveStep(s, id) in table[s.operations[id].kind]
  }

  /** Left alone, a cancellation of such an operation whose active step is known fails it within four steps,
      with one event for that step. */
  lemma CancelFails(s: State, table: StepTable, p: nat, times: seq<int>)
    requires Inv(s) && Cancellable(s, table, p) && |times| == 4
    ensures var id := s.calls[p].request.operationID;
      var log, kind, step := EventsOf(s.events, id), s.operations[id].kind, ActiveStep(s, id);
      var t := Exec(s, table, seq(4, i requires 0 <= i < 4 => Advance(p, times[i])));
      && |t.calls| == |s.calls| && t.calls[p].stage == Done
      && id in t.operations && t.operations[id].status == Failed && t.operations[id].completedAt == Some(times[2])
      && EventsOf(t.events, id)
           == log + [Event(id, |log| + 1, step, table[kind][step], Failed, times[2], CANCELLED)]
  {
    FourSteps(s, table, p, times);
    CancelLooks(s, table, p, times[0], times[1]);
    var s2 := Move(s, p, Reading(ActiveStep(s, s.calls[p].request.operationID)));
    CancelReads(s2, table, p, times[2]);
    CancelLands(Step(s2, table, Advance(p, times[2])), table, p, times[3]);
  }

  /** It finds the operation, and its active step. */
  lemma CancelLooks(s: State, table: StepTable, p: nat, first: int, second: int)
    requires Cancellable(s, table, p)
    ensures Step(Step(s, table, Advance(p, first)), table, Advance(p, second))
      == Move(s, p, Reading(ActiveStep(s, s.calls[p].request.operationID)))
  {
    ProbeDecides(s, table, p, first);
    var log := EventsOf(s.events, s.calls[p].request.operationID);
    assert Page(log, 0, 500) == Sequences.FirstOf(log, 500);
  }

  lemma CancelLands(s: State, table: StepTable, p: nat, now: int)
    requires OperationsOK(s) && p < |s.calls| && s.calls[p].stage.Appending? && s.calls[p].stage.status == Failed
    requires var r := s.calls[p].request;
      && r.operationID in s.operations && s.operations[r.operationID].scope == r.scope
      && !IsTerminal(s.operations[r.operationID].status)
    ensures var id, event, t := s.calls[p].request.operationID, s.calls[p].stage.event, Step(s, table, Advance(p, now));
      && |t.calls| == |s.calls| && t.calls[p].stage == Done
      && id in t.operations && t.operations[id].status == Failed
      && t.operations[id].completedAt == Some(event.timestamp)
      && EventsOf(t.events, id)
           == EventsOf(s.events, id) + [event.(operationID := id, sequence := |EventsOf(s.events, id)| + 1)]
  {
    assert Step(s, table, Advance(p, now)) == AppendStep(s, p, s.calls[p].stage.event, Failed);
  }

  lemma CancelReads(s: State, table: StepTable, p: nat, now: int)
    requires p < |s.calls| && s.calls[p].request.Cancel? && s.calls[p].stage.Reading?
    requires Allowed(s, table, s.calls[p].request, s.calls[p].stage.stepID)
    ensures var op, step := s.operations[s.calls[p].request.operationID], s.calls[p].stage.stepID;
      Step(s, table, Advance(p, now))
        == Move(s, p, Appending(Event("", 0, step, table[op.kind][step], Failed, now, CANCELLED), Failed, op))
  {
    var r := s.calls[p].request;
    SanitizedIff(RequestMetadata(r));
    assert RequestMetadata(r)[TERMINAL_KEY := Flag(true)] == CANCELLED;
  }

  lemma FourSteps(s: State, table: StepTable, p: nat, times: seq<int>)
    requires |times| == 4
    ensures var go := seq(4, i requires 0 <= i < 4 => Advance(p, times[i]));
      Exec(s, table, go) == Step(Step(Step(Step(s, table, go[0]), table, go[1]), table, go[2]), table, go[3])
  {
    var go := seq(4, i requires 0 <= i < 4 => Advance(p, times[i]));
    assert go == [go[0]] + ([go[1]] + ([go[2]] + [go[3]]));
    var s1 := Step(s, table, go[0]);
    var s2 := Step(s1, table, go[1]);
    ExecCons(s, table, go[0], [go[1]] + ([go[2]] + [go[3]]));
    ExecCons(s1, table, go[1], [go[2]] + [go[3]]);
    ExecCons(s2, table, go[2], [go[3]]);
    ExecCons(Step(s2, table, go[2]), table, go[3], []);
    assert [go[3]] + [] == [go[3]];
  }

  // ---- times ----

  /** An operation was updated when its last event says, or never since it was created. */
  ghost predicate Dated(s: State, id: string) {
    id in s.operations ==>
      var op, log := s.operations[id], EventsOf(s.events, id);
      op.updatedAt == if log == [] then op.createdAt else log[|log| - 1].timestamp
  }

  lemma {:induction false} UpdatedAtLast(table: StepTable, actions: seq<Action>, id: string)
    ensures Dated(Exec(Init(), table, actions), id)
  {
    ExecDated(Init(), table, actions, id);
  }

  lemma {:induction false} ExecDated(s: State, table: StepTable, actions: seq<Action>, id: string)
    requires Inv(s) && Dated(s, id)
    ensures Dated(Exec(s, table, actions), id)
    decreases |actions|
  {
    if actions != [] {
      StepInv(s, table, actions[0]);
      StepDated(s, table, actions[0], id);
      ExecDated(Step(s, table, actions[0]), table, actions[1..], id);
    }
  }

  lemma StepDated(s: State, table: StepTable, a: Action, id: string)
    requires Inv(s) && Dated(s, id)
    ensures Dated(Step(s, table, a), id)
  {
    if a.Create? {
      assert id !in s.operations ==> EventsOf(s.events, id) == [];
    } else if a.Advance? && a.caller < |s.calls| && Lands(s, a, s.calls[a.caller].request.operationID) {
      LandDated(s, table, a, id);
    } else {
      NothingLands(s, table, a);
    }
  }

  lemma LandDated(s: State, table: StepTable, a: Action, id: string)
    requires Inv(s) && Dated(s, id) && a.Advance? && a.caller < |s.calls|
    requires Lands(s, a, s.calls[a.caller].request.operationID)
    ensures Dated(Step(s, table, a), id)
  {
    var op, stage := s.calls[a.caller].request.operationID, s.calls[a.caller].stage;
    LandStep(s, table, a, op);
    LandedOperation(s, table, a, op);
  }

  lemma LandedOperation(s: State, table: StepTable, a: Action, id: string)
    requires a.Advance? && a.caller < |s.calls| && s.calls[a.caller].request.operationID == id && Lands(s, a, id)
    ensures var stage := s.calls[a.caller].stage;
      Step(s, table, a).operations == s.operations[id := Advanced(s.operations[id], stage.event, stage.status)]
  {
  }

  lemma NothingLands(s: State, table: StepTable, a: Action)
    requires !a.Create?
    requires a.Advance? && a.caller < |s.calls| ==> !Lands(s, a, s.calls[a.caller].request.operationID)
    ensures Step(s, table, a).operations == s.operations && Step(s, table, a).events == s.events
  {
  }
}
