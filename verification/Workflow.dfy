/** The workflow service above its store. appendScoped reads the operation, computes the next status from
    that reading, and appends later; between the two any other call may act, so the status may be stale.
    The theorems hold for every interleaving of any number of appends and cancellations. */
module Workflow {
  import opened Options
  import opened WorkflowStore
  import Text

  /** The steps of each operation kind, with their labels. */
  type StepTable = map<string, map<string, string>>

  const ALLOWED_METADATA_KEYS: set<string> :=
    {"attempt", "max_attempts", "question_count", "event_count", "changed", "skipped", "reason_code", "retryable"}

  const TERMINAL_KEY: string := "terminal"

  predicate SafeEntry(key: string, value: Scalar) {
    key in ALLOWED_METADATA_KEYS
    && (value.Text? ==> Text.ByteLength(value.text) <= 80)
    && !value.Structured?
  }

  function Sanitized(metadata: Metadata): Option<Metadata> {
    if forall key :: key in metadata ==> SafeEntry(key, metadata[key]) then Some(metadata) else None
  }

  /** Entries are visited in no particular order; the outcome does not depend on it. */
  method SanitizeMetadata(metadata: Metadata) returns (safe: Option<Metadata>)
    ensures safe == Sanitized(metadata)
  {
    var copied: Metadata, rest := map[], metadata.Keys;
    while rest != {}
      invariant rest <= metadata.Keys && copied.Keys == metadata.Keys - rest
      invariant forall key :: key in copied ==> copied[key] == metadata[key] && SafeEntry(key, metadata[key])
      decreases rest
    {
      var key :| key in rest;
      if !SafeEntry(key, metadata[key]) {
        return None;
      }
      copied, rest := copied[key := metadata[key]], rest - {key};
    }
    assert copied == metadata;
    return Some(copied);
  }

  /** The latest event of a step. */
  function Latest(events: seq<Event>, step: string): Option<Event> {
    if events == [] then None
    else if events[|events| - 1].stepID == step then Some(events[|events| - 1])
    else Latest(events[..|events| - 1], step)
  }

  /** The steps in the order in which they first appear. */
  function Order(events: seq<Event>): seq<string> {
    if events == [] then [] else
    var earlier, step := Order(events[..|events| - 1]), events[|events| - 1].stepID;
    if Latest(events[..|events| - 1], step) != None then earlier else earlier + [step]
  }

  predicate LatestIs(events: seq<Event>, step: string, status: Status) {
    var e := Latest(events, step);
    e.Some? && e.value.status == status
  }

  function FirstHaving(order: seq<string>, events: seq<Event>, status: Status): Option<string> {
    if order == [] then None
    else if LatestIs(events, order[0], status) then Some(order[0])
    else FirstHaving(order[1..], events, status)
  }

  /** What a cancellation marks failed: the first running step, else the first queued one, else the last
      step reported, else nothing. */
  function FirstActive(events: seq<Event>): string {
    var order := Order(events);
    match FirstHaving(order, events, Running)
    case Some(step) => step
    case None =>
      match FirstHaving(order, events, Queued)
      case Some(step) => step
      case None => if order == [] then "" else order[|order| - 1]
  }

  method FirstActiveStep(events: seq<Event>) returns (step: string)
    ensures step == FirstActive(events)
  {
    var latest: map<string, Event>, order: seq<string> := map[], [];
    for n := 0 to |events|
      invariant order == Order(events[..n])
      invariant forall s :: Latest(events[..n], s) == if s in latest then Some(latest[s]) else None
    {
      var e := events[n];
      assert events[..n + 1][..n] == events[..n];
      if e.stepID !in latest {
        order := order + [e.stepID];
      }
      latest := latest[e.stepID := e];
    }
    assert events[..|events|] == events;
    for i := 0 to |order|
      invariant FirstHaving(order, events, Running) == FirstHaving(order[i..], events, Running)
    {
      if order[i] in latest && latest[order[i]].status == Running {
        return order[i];
      }
      assert order[i..][1..] == order[i + 1..];
    }
    for i := 0 to |order|
      invariant FirstHaving(order, events, Queued) == FirstHaving(order[i..], events, Queued)
    {
      if order[i] in latest && latest[order[i]].status == Queued {
        return order[i];
      }
      assert order[i..][1..] == order[i + 1..];
    }
    return if |order| > 0 then order[|order| - 1] else "";
  }

  /** The step a cancellation picks was reported by some event, unless there are none; and if any step's
      latest report is running, so is the picked one's. */
  lemma FirstActiveReported(events: seq<Event>)
    requires events != []
    ensures exists i :: 0 <= i < |events| && events[i].stepID == FirstActive(events)
    ensures (exists step :: LatestIs(events, step, Running)) ==> LatestIs(events, FirstActive(events), Running)
  {
    OrderReported(events);
    FirstHavingIn(Order(events), events, Running);
    FirstHavingIn(Order(events), events, Queued);
    assert FirstActive(events) in Order(events);
    if step :| LatestIs(events, step, Running) {
      LatestInOrder(events, step);
    }
  }

  lemma {:induction false} FirstHavingIn(order: seq<string>, events: seq<Event>, status: Status)
    ensures var found := FirstHaving(order, events, status);
      if found.Some? then found.value in order && LatestIs(events, found.value, status)
      else forall s :: s in order ==> !LatestIs(events, s, status)
  {
    if order != [] {
      FirstHavingIn(order[1..], events, status);
      assert order == [order[0]] + order[1..];
    }
  }

  lemma {:induction false} LatestInOrder(events: seq<Event>, step: string)
    ensures Latest(events, step) != None ==> step in Order(events)
  {
    if events != [] && events[|events| - 1].stepID != step {
      LatestInOrder(events[..|events| - 1], step);
    } else if events != [] {
      LatestInOrder(events[..|events| - 1], step);
    }
  }

  lemma {:induction false} OrderReported(events: seq<Event>)
    ensures events != [] ==> Order(events) != []
    ensures forall s :: s in Order(events) ==> exists i :: 0 <= i < |events| && events[i].stepID == s
  {
    if events != [] {
      var front := events[..|events| - 1];
      OrderReported(front);
      LatestReported(front, events[|events| - 1].stepID);
      forall s | s in Order(events) ensures exists i :: 0 <= i < |events| && events[i].stepID == s {
        if s in Order(front) {
          var i :| 0 <= i < |front| && front[i].stepID == s;
          assert events[i].stepID == s;
        } else {
          assert events[|events| - 1].stepID == s;
        }
      }
    }
  }

  lemma LatestReported(events: seq<Event>, step: string)
    ensures Latest(events, step) != None ==> events != []
  {
  }

  // ---- the protocol ----

  /** An append of one step event, or a cancellation (which names no step: it appends a terminal failure
      to the step it finds active). */
  datatype Request =
    | Append(scope: string, operationID: string, stepID: string, status: Status, metadata: Metadata, terminal: bool)
    | Cancel(scope: string, operationID: string)

  datatype Stage =
    | Probing
    | Listing
    | Reading(stepID: string)
    | Appending(event: Event, status: Status, seen: Operation)
    | Done
    | Refused

  datatype Call = Call(request: Request, stage: Stage)

  datatype State = State(operations: Operations, events: Events, calls: seq<Call>)

  const MAX_EVENTS_PER_READ := 500

  datatype Action =
    | Create(id: string, scope: string, kind: string, now: int)
    | Arrive(request: Request)
    | Advance(caller: nat, now: int)
    | Abort(caller: nat)

  function Init(): State {
    State(map[], map[], [])
  }

  function Terminating(r: Request): bool {
    r.Cancel? || r.terminal
  }

  function EventStatus(r: Request): Status {
    if r.Cancel? then Failed else r.status
  }

  function RequestMetadata(r: Request): Metadata {
    if r.Cancel? then map["reason_code" := Text("cancelled"), "retryable" := Flag(true)] else r.metadata
  }

  /** The status appendScoped computes from the operation it read. */
  function NextStatus(read: Status, event: Status, terminal: bool): Status {
    if terminal then if event == Failed then Failed else Succeeded
    else if event == Running && read == Queued then Running
    else read
  }

  function Move(s: State, p: nat, stage: Stage): State
    requires p < |s.calls|
  {
    s.(calls := s.calls[p := s.calls[p].(stage := stage)])
  }

  function Step(s: State, table: StepTable, a: Action): State {
    match a
    case Create(id, scope, kind, now) =>
      if kind !in table then s else
      (match Created(s.operations, Operation(id, scope, kind, Queued, 0, now, now, None))
       case Err(_) => s
       case Ok(operations) => s.(operations := operations))
    case Arrive(request) =>
      s.(calls := s.calls + [Call(request, if request.Cancel? then Probing else Reading(request.stepID))])
    case Abort(p) => if p < |s.calls| && s.calls[p].stage != Done then Move(s, p, Refused) else s
    case Advance(p, now) =>
      if p >= |s.calls| then s else
      match s.calls[p].stage
      case Probing => ProbeStep(s, p)
      case Listing => ListStep(s, p)
      case Reading(step) => ReadStep(s, table, p, step, now)
      case Appending(event, status, _) => AppendStep(s, p, event, status)
      case Done => s
      case Refused => s
  }

  function ProbeStep(s: State, p: nat): State
    requires p < |s.calls|
  {
    var r := s.calls[p].request;
    match Found(s.operations, r.scope, r.operationID)
    case Err(_) => Move(s, p, Refused)
    case Ok(op) => Move(s, p, if IsTerminal(op.status) then Refused else Listing)
  }

  function ListStep(s: State, p: nat): State
    requires p < |s.calls|
  {
    var log := EventsOf(s.events, s.calls[p].request.operationID);
    Move(s, p, Reading(FirstActive(Page(log, 0, MAX_EVENTS_PER_READ))))
  }

  function ReadStep(s: State, table: StepTable, p: nat, step: string, now: int): State
    requires p < |s.calls|
  {
    var r := s.calls[p].request;
    match Found(s.operations, r.scope, r.operationID)
    case Err(_) => Move(s, p, Refused)
    case Ok(op) =>
      if op.kind !in table || step !in table[op.kind] || EventStatus(r).Invalid? then Move(s, p, Refused) else
      match Sanitized(RequestMetadata(r))
      case None => Move(s, p, Refused)
      case Some(safe) =>
        var metadata := if Terminating(r) then safe[TERMINAL_KEY := Flag(true)] else safe;
        Move(s, p, Appending(Event("", 0, step, table[op.kind][step], EventStatus(r), now, metadata),
                             NextStatus(op.status, EventStatus(r), Terminating(r)), op))
  }

  function AppendStep(s: State, p: nat, event: Event, status: Status): State
    requires p < |s.calls|
  {
    var r := s.calls[p].request;
    match Appended(s.operations, s.events, r.scope, r.operationID, event, status)
    case Err(_) => Move(s, p, Refused)
    case Ok((operations, events)) => Move(s.(operations := operations, events := events), p, Done)
  }

  function Exec(s: State, table: StepTable, actions: seq<Action>): State
    decreases |actions|
  {
    if actions == [] then s else Exec(Step(s, table, actions[0]), table, actions[1..])
  }

  // ---- the inductive invariant ----

  predicate CarriesMark(e: Event) {
    TERMINAL_KEY in e.metadata
  }

  /** One operation and its log: consecutive sequence numbers from 1 to the last one, a completion time
      exactly when terminal, and the terminal mark on the last event exactly then and nowhere else. */
  ghost predicate LogOK(op: Operation, es: seq<Event>) {
    && op.lastSequence == |es| && WellSequenced(es)
    && (forall i :: 0 <= i < |es| ==> es[i].operationID == op.id)
    && !op.status.Invalid?
    && (IsTerminal(op.status) <==> op.completedAt.Some?)
    && (IsTerminal(op.status) <==> es != [] && CarriesMark(es[|es| - 1]))
    && (forall i :: 0 <= i < |es| - 1 ==> !CarriesMark(es[i]))
    && (IsTerminal(op.status) ==>
          && op.completedAt == Some(es[|es| - 1].timestamp)
          && (op.status == Failed <==> es[|es| - 1].status == Failed))
  }

  ghost predicate OperationsOK(s: State) {
    && (forall id :: id in s.operations ==>
          s.operations[id].id == id && LogOK(s.operations[id], EventsOf(s.events, id)))
    && (forall id :: id in s.events ==> id in s.operations)
  }

  /** A pending append is marked exactly when it terminates; a terminal status it merely carried over from
      its reading means that the operation is terminal by now. */
  ghost predicate CallOK(s: State, p: nat)
    requires p < |s.calls|
  {
    var r := s.calls[p].request;
    s.calls[p].stage.Appending? ==>
      var event, status := s.calls[p].stage.event, s.calls[p].stage.status;
      && (CarriesMark(event) <==> Terminating(r))
      && !status.Invalid?
      && (Terminating(r) ==> IsTerminal(status) && (status == Failed <==> event.status == Failed))
      && (!Terminating(r) && IsTerminal(status) ==>
            r.operationID in s.operations && IsTerminal(s.operations[r.operationID].status))
  }

  ghost predicate Inv(s: State) {
    OperationsOK(s) && forall p :: 0 <= p < |s.calls| ==> CallOK(s, p)
  }

  /** A terminal operation and its log never change again, and no operation or event disappears. */
  ghost predicate Absorbs(s: State, t: State) {
    forall id :: id in s.operations ==>
      && id in t.operations
      && EventsOf(s.events, id) <= EventsOf(t.events, id)
      && (IsTerminal(s.operations[id].status) ==>
            t.operations[id] == s.operations[id] && EventsOf(t.events, id) == EventsOf(s.events, id))
  }

  lemma SanitizedHasNoMark(metadata: Metadata)
    ensures Sanitized(metadata).Some? ==> TERMINAL_KEY !in metadata
  {
    assert TERMINAL_KEY !in ALLOWED_METADATA_KEYS by {
      assert |TERMINAL_KEY| == 8;
      assert TERMINAL_KEY[0] == 't';
    }
  }

  /** The calls' invariant only asks that terminal operations stay terminal. */
  lemma FrameCall(s: State, t: State, p: nat)
    requires p < |s.calls| && p < |t.calls| && t.calls[p] == s.calls[p]
    requires CallOK(s, p) && Absorbs(s, t)
    ensures CallOK(t, p)
  {
  }

  lemma MoveInv(s: State, p: nat, stage: Stage)
    requires Inv(s) && p < |s.calls|
    requires CallOK(Move(s, p, stage), p)
    ensures Inv(Move(s, p, stage)) && Absorbs(s, Move(s, p, stage))
  {
    var s' := Move(s, p, stage);
    forall q | 0 <= q < |s'.calls| ensures CallOK(s', q) {
      if q != p { FrameCall(s, s', q); }
    }
  }

  lemma ReadInv(s: State, table: StepTable, p: nat, step: string, now: int)
    requires Inv(s) && p < |s.calls| && s.calls[p].stage == Reading(step)
    ensures Inv(ReadStep(s, table, p, step, now)) && Absorbs(s, ReadStep(s, table, p, step, now))
  {
    var r := s.calls[p].request;
    SanitizedHasNoMark(RequestMetadata(r));
    MoveInv(s, p, ReadStep(s, table, p, step, now).calls[p].stage);
  }

  lemma AppendInv(s: State, p: nat, event: Event, status: Status)
    requires Inv(s) && p < |s.calls| && s.calls[p].stage.Appending?
    requires s.calls[p].stage.event == event && s.calls[p].stage.status == status
    ensures Inv(AppendStep(s, p, event, status)) && Absorbs(s, AppendStep(s, p, event, status))
  {
    var r, s' := s.calls[p].request, AppendStep(s, p, event, status);
    if Appended(s.operations, s.events, r.scope, r.operationID, event, status).Err? {
      MoveInv(s, p, Refused);
    } else {
      assert CallOK(s, p);
      AppendOperations(s, p, event, status);
      forall q | 0 <= q < |s'.calls| ensures CallOK(s', q) {
        if q != p { FrameCall(s, s', q); }
      }
    }
  }

  /** A successful append keeps every log right, and touches no terminal operation. */
  lemma AppendOperations(s: State, p: nat, event: Event, status: Status)
    requires OperationsOK(s) && p < |s.calls| && s.calls[p].stage.Appending? && CallOK(s, p)
    requires s.calls[p].stage.event == event && s.calls[p].stage.status == status
    requires Appended(
      s.operations, s.events, s.calls[p].request.scope, s.calls[p].request.operationID, event, status).Ok?
    ensures var s' := AppendStep(s, p, event, status); OperationsOK(s') && Absorbs(s, s')
  {
    var s', id := AppendStep(s, p, event, status), s.calls[p].request.operationID;
    AppendedLog(s.operations[id], EventsOf(s.events, id), event, status);
    OneOperation(s, s', id, s'.operations[id], s'.events[id]);
  }

  lemma OneOperation(s: State, s': State, id: string, op: Operation, es: seq<Event>)
    requires OperationsOK(s) && id in s.operations && !IsTerminal(s.operations[id].status)
    requires s'.operations == s.operations[id := op] && s'.events == s.events[id := es]
    requires op.id == id && LogOK(op, es) && EventsOf(s.events, id) <= es
    ensures OperationsOK(s') && Absorbs(s, s')
  {
    forall i | i in s'.operations ensures LogOK(s'.operations[i], EventsOf(s'.events, i)) {
      if i != id {
        assert EventsOf(s'.events, i) == EventsOf(s.events, i);
      }
    }
  }

  lemma AppendedLog(op: Operation, es: seq<Event>, event: Event, status: Status)
    requires LogOK(op, es) && !IsTerminal(op.status) && !status.Invalid?
    requires CarriesMark(event) <==> IsTerminal(status)
    requires CarriesMark(event) ==> (status == Failed <==> event.status == Failed)
    ensures LogOK(Advanced(op, event, status),
                  es + [event.(operationID := op.id, sequence := op.lastSequence + 1)])
  {
    if es != [] { assert !CarriesMark(es[|es| - 1]); }
  }

  lemma CreateInv(s: State, table: StepTable, a: Action)
    requires Inv(s) && a.Create?
    ensures Inv(Step(s, table, a)) && Absorbs(s, Step(s, table, a))
  {
    var s' := Step(s, table, a);
    forall q | 0 <= q < |s'.calls| ensures CallOK(s', q) { FrameCall(s, s', q); }
  }

  lemma ArriveInv(s: State, table: StepTable, request: Request)
    requires Inv(s)
    ensures Inv(Step(s, table, Arrive(request))) && Absorbs(s, Step(s, table, Arrive(request)))
  {
    var s' := Step(s, table, Arrive(request));
    forall q | 0 <= q < |s'.calls| ensures CallOK(s', q) {
      if q < |s.calls| { FrameCall(s, s', q); }
    }
  }

  lemma StepInv(s: State, table: StepTable, a: Action)
    requires Inv(s)
    ensures Inv(Step(s, table, a)) && Absorbs(s, Step(s, table, a))
  {
    match a
    case Create(_, _, _, _) => CreateInv(s, table, a);
    case Arrive(request) => ArriveInv(s, table, request);
    case Abort(p) => if p < |s.calls| && s.calls[p].stage != Done { MoveInv(s, p, Refused); }
    case Advance(p, now) =>
      if p < |s.calls| {
        match s.calls[p].stage
        case Probing => MoveInv(s, p, ProbeStep(s, p).calls[p].stage);
        case Listing => MoveInv(s, p, ListStep(s, p).calls[p].stage);
        case Reading(step) => ReadInv(s, table, p, step, now);
        case Appending(event, status, _) => AppendInv(s, p, event, status);
        case Done =>
        case Refused =>
      }
  }

  lemma AbsorbsTransitive(a: State, b: State, c: State)
    requires Absorbs(a, b) && Absorbs(b, c)
    ensures Absorbs(a, c)
  {
    forall id | id in a.operations ensures EventsOf(a.events, id) <= EventsOf(c.events, id) {
      assert EventsOf(a.events, id) <= EventsOf(b.events, id) <= EventsOf(c.events, id);
    }
  }

  lemma {:induction false} ExecInv(s: State, table: StepTable, actions: seq<Action>)
    requires Inv(s)
    ensures Inv(Exec(s, table, actions)) && Absorbs(s, Exec(s, table, actions))
    decreases |actions|
  {
    if actions != [] {
      StepInv(s, table, actions[0]);
      var mid := Step(s, table, actions[0]);
      ExecInv(mid, table, actions[1..]);
      AbsorbsTransitive(s, mid, Exec(mid, table, actions[1..]));
    }
  }

  // ---- the promises ----

  /** In every reachable state every operation's log is consecutive and complete, its completion time is
      set iff it is terminal, and exactly its last event carries the terminal mark iff it is terminal. */
  lemma LogsAlwaysOK(table: StepTable, actions: seq<Action>)
    ensures var s := Exec(Init(), table, actions);
      forall id :: id in s.operations ==> LogOK(s.operations[id], EventsOf(s.events, id))
  {
    ExecInv(Init(), table, actions);
  }

  /** However the run goes on, a terminal operation stays exactly as it is, and logs only grow. */
  lemma TerminalIsFinal(table: StepTable, before: seq<Action>, later: seq<Action>)
    ensures var s := Exec(Init(), table, before);
      Absorbs(s, Exec(s, table, later))
  {
    ExecInv(Init(), table, before);
    ExecInv(Exec(Init(), table, before), table, later);
  }

  lemma ExecCons(s: State, table: StepTable, a: Action, rest: seq<Action>)
    ensures Exec(s, table, [a] + rest) == Exec(Step(s, table, a), table, rest)
    ensures rest == [] ==> Exec(s, table, [a]) == Step(s, table, a)
  {
    assert ([a] + rest)[1..] == rest;
  }
}
