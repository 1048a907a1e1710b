/** The model relay across its three stores: workflow operations, operation budgets and usage rows. A call
    reads the budget, checks the operation, talks to the provider, charges the budget, and records a row,
    each in a separate atomic step; any number of calls, token issues and workflow actions interleave. */
module Relay {
  import opened Options
  import opened UsageLedger
  import opened RelayBudget
  import opened Sums
  import W = Workflow
  import WS = WorkflowStore

  /** Server configuration; the service refuses to start without positive ceilings and lifetimes. */
  datatype Config = Config(
    rate: Rate, defaultTokens: int, defaultMicros: int, wallClock: int, tokenTTL: int, table: W.StepTable)

  predicate ValidConfig(c: Config) {
    ValidRate(c.rate) && c.defaultTokens > 0 && c.defaultMicros > 0 && c.wallClock > 0 && c.tokenTTL > 0
  }

  /** What a signed token carries. Verification is membership in the set of issued tokens and expiry. */
  datatype Claims = Claims(budgetID: string, operationID: string, scope: string, expiresAt: int)

  datatype Request =
    | Issue(scope: string, operationID: string, deadline: int, maxTokens: int, maxMicros: int)
    | Completion(claims: Claims)

  /** What the provider sent back: a body or a finished stream with usage, one without it or a stream that broke
      off, or nothing the relay accounts for (an error response, a lost connection). */
  datatype Reply = WithUsage(raw: RawUsage) | WithoutUsage | Unaccounted

  datatype Stage =
    | IssueChecking
    | IssueCreating
    | Verifying
    | Fetching
    | Checking(budget: Budget)
    | Denying
    | Asking
    | Charging(usage: Usage)
    | Recording(usage: Usage)
    | Revoking
    | Ended

  /** `authorized` is set when Authenticate succeeded; `booked` is the usage that was charged and recorded,
      `lost` one that was charged and failed to be recorded. */
  datatype Call = Call(
    request: Request, stage: Stage, authorized: bool, lost: Option<Usage>, booked: Option<Usage>)

  datatype State = State(
    work: W.State, budgets: Budgets, rows: seq<Record>, tokens: set<Claims>, calls: seq<Call>)

  /** `recorded` and `revoked` are whether the usage row and the revocation are written when attempted;
      `Revoke` is what the workflow service does after it appended a terminal event. */
  datatype Action =
    | Work(action: W.Action)
    | Arrive(request: Request)
    | Advance(caller: nat, now: int, freshID: string, reply: Reply, recorded: bool, revoked: bool)
    | Abandon(caller: nat)
    | Revoke(scope: string, operationID: string, now: int)

  function Init(): State {
    State(W.Init(), map[], [], {}, [])
  }

  /** Whether the operation exists in the scope and is not terminal. */
  predicate OperationActive(s: State, scope: string, operationID: string) {
    var found := WS.Found(s.work.operations, scope, operationID);
    found.Ok? && !WS.IsTerminal(found.value.status)
  }

  function Move(s: State, p: nat, stage: Stage): State
    requires p < |s.calls|
  {
    s.(calls := s.calls[p := s.calls[p].(stage := stage)])
  }

  /** A client that goes away ends its call as long as the provider has not answered; what follows runs to its
      end. */
  predicate CanAbandon(stage: Stage) {
    match stage
    case Denying => false
    case Charging(_) => false
    case Recording(_) => false
    case Revoking => false
    case _ => true
  }

  function Step(c: Config, s: State, a: Action): State {
    match a
    case Work(action) => s.(work := W.Step(s.work, c.table, action))
    case Arrive(request) =>
      s.(calls := s.calls + [Call(request, if request.Issue? then IssueChecking else Verifying, false, None, None)])
    case Abandon(p) =>
      if p < |s.calls| && CanAbandon(s.calls[p].stage) then Move(s, p, Ended) else s
    case Advance(p, now, freshID, reply, recorded, revoked) =>
      if p >= |s.calls| then s else
      (match s.calls[p].request
       case Issue(_, _, _, _, _) => IssueStep(c, s, p, now, freshID)
       case Completion(claims) => CompletionStep(c, s, p, claims, now, reply, recorded, revoked))
    case Revoke(scope, operationID, now) => s.(budgets := WithRevocation(s.budgets, scope, operationID, now))
  }

  function IssueStep(c: Config, s: State, p: nat, now: int, freshID: string): State
    requires p < |s.calls| && s.calls[p].request.Issue?
  {
    var r := s.calls[p].request;
    match s.calls[p].stage
    case IssueChecking =>
      Move(s, p, if r.operationID != "" && r.scope != "" && OperationActive(s, r.scope, r.operationID)
                 then IssueCreating else Ended)
    case IssueCreating =>
      var deadline := if r.deadline == 0 then now + c.wallClock else r.deadline;
      if deadline <= now then Move(s, p, Ended) else
      var b := Budget(freshID, r.operationID, r.scope, if r.maxTokens <= 0 then c.defaultTokens else r.maxTokens,
                      if r.maxMicros <= 0 then c.defaultMicros else r.maxMicros, deadline, 0, 0, None);
      (match Created(s.budgets, b)
       case Err(_) => Move(s, p, Ended)
       case Ok(budgets) =>
         Move(s.(budgets := budgets,
                 tokens := s.tokens + {Claims(freshID, r.operationID, r.scope, now + c.tokenTTL)}), p, Ended))
    case _ => s
  }

  function CompletionStep(
    c: Config, s: State, p: nat, claims: Claims, now: int, reply: Reply, recorded: bool, revoked: bool): State
    requires p < |s.calls|
  {
    match s.calls[p].stage
    case Verifying => Move(s, p, if claims in s.tokens && now < claims.expiresAt then Fetching else Ended)
    case Fetching =>
      (match Found(s.budgets, claims.scope, claims.operationID)
       case Err(_) => Move(s, p, Ended)
       case Ok(b) => Move(s, p, if b.id != claims.budgetID || b.revokedAt.Some? then Ended else Checking(b)))
    case Checking(b) => CheckStep(s, p, claims, b, now)
    case Denying => RevokeStep(s, p, claims, now, revoked)
    case Asking => Move(s, p, Received(reply))
    case Charging(u) => ChargeStep(c, s, p, claims, u)
    case Recording(u) => RecordStep(c, s, p, claims, u, recorded)
    case Revoking => RevokeStep(s, p, claims, now, revoked)
    case _ => s
  }

  /** The activity check and what follows it locally, on the budget as it was read before. */
  function CheckStep(s: State, p: nat, claims: Claims, b: Budget, now: int): State
    requires p < |s.calls|
  {
    if WS.Found(s.work.operations, claims.scope, claims.operationID).Err? then Move(s, p, Ended)
    else if !OperationActive(s, claims.scope, claims.operationID) then Move(s, p, Denying)
    else if now >= b.deadline || !HasRoom(b) then Move(s, p, Ended)
    else s.(calls := s.calls[p := s.calls[p].(stage := Asking, authorized := true)])
  }

  predicate HasRoom(b: Budget) {
    b.usedTokens < b.maxTokens && b.usedMicros < b.maxMicros
  }

  function Received(reply: Reply): Stage {
    match reply
    case Unaccounted => Ended
    case WithoutUsage => Revoking
    case WithUsage(raw) => if Parse(raw).1 then Charging(Parse(raw).0) else Revoking
  }

  /** A revocation write may be lost; the original only logs that. */
  function RevokeStep(s: State, p: nat, claims: Claims, now: int, revoked: bool): State
    requires p < |s.calls|
  {
    if !revoked then Move(s, p, Ended)
    else Move(s.(budgets := WithRevocation(s.budgets, claims.scope, claims.operationID, now)), p, Ended)
  }

  function ChargeStep(c: Config, s: State, p: nat, claims: Claims, u: Usage): State
    requires p < |s.calls|
  {
    match Found(s.budgets, claims.scope, claims.operationID)
    case Err(_) => Move(s, p, Revoking)
    case Ok(b) =>
      var s' := s.(budgets := s.budgets[claims.operationID := Charged(b, ChargeFor(c.rate, u))]);
      if b.id != claims.budgetID then FailAfterCharge(s', p, u) else Move(s', p, Recording(u))
  }

  function FailAfterCharge(s: State, p: nat, u: Usage): State
    requires p < |s.calls|
  {
    s.(calls := s.calls[p := s.calls[p].(stage := Revoking, lost := Some(u))])
  }

  function RecordStep(c: Config, s: State, p: nat, claims: Claims, u: Usage, recorded: bool): State
    requires p < |s.calls|
  {
    if !recorded || claims.scope == "" then FailAfterCharge(s, p, u)
    else
      s.(rows := s.rows + [RowFor(c.rate, claims.scope, claims.operationID, u)],
         calls := s.calls[p := s.calls[p].(stage := Ended, booked := Some(u))])
  }

  function Exec(c: Config, s: State, actions: seq<Action>): State
    decreases |actions|
  {
    if actions == [] then s else Exec(c, Step(c, s, actions[0]), actions[1..])
  }

  // ---- the measures ----

  /** Everything is stated twice: for tokens and for millionths of a dollar. */
  datatype Unit = Tokens | Micros

  function Used(b: Budget, unit: Unit): int {
    if unit.Tokens? then b.usedTokens else b.usedMicros
  }

  function Ceiling(b: Budget, unit: Unit): int {
    if unit.Tokens? then b.maxTokens else b.maxMicros
  }

  function ChargeIn(c: Config, u: Usage, unit: Unit): int {
    if unit.Tokens? then ChargeFor(c.rate, u).tokens else ChargeFor(c.rate, u).micros
  }

  predicate ForOperation(call: Call, op: string) {
    call.request.Completion? && call.request.claims.operationID == op
  }

  /** A call between its budget read and its accounting that may still charge: it read a budget with room,
      or it was authorized and has not charged yet. */
  predicate InFlight(call: Call, op: string) {
    ForOperation(call, op)
    && (call.stage.Asking? || call.stage.Charging? || (call.stage.Checking? && HasRoom(call.stage.budget)))
  }

  function FlightCount(op: string): Call -> int {
    (call: Call) => if InFlight(call, op) then 1 else 0
  }

  function InFlightCount(s: State, op: string): int {
    Total(s.calls, FlightCount(op))
  }

  /** Charged to the budget, not yet recorded. */
  function PendingOf(c: Config, op: string, unit: Unit): Call -> int {
    (call: Call) => if ForOperation(call, op) && call.stage.Recording? then ChargeIn(c, call.stage.usage, unit) else 0
  }

  /** Charged to the budget, and the recording failed. */
  function LostOf(c: Config, op: string, unit: Unit): Call -> int {
    (call: Call) => if ForOperation(call, op) && call.lost.Some? then ChargeIn(c, call.lost.value, unit) else 0
  }

  function RowIn(c: Config, u: Usage, unit: Unit): int {
    var row := RowFor(c.rate, "", "", u);
    if unit.Tokens? then row.tokens else row.micros
  }

  /** By how much more the budget was charged than the row says. */
  function GapOf(c: Config, op: string, unit: Unit): Call -> int {
    (call: Call) =>
      if ForOperation(call, op) && call.booked.Some?
      then ChargeIn(c, call.booked.value, unit) - RowIn(c, call.booked.value, unit) else 0
  }

  function RowOf(op: string, unit: Unit): Record -> int {
    (row: Record) => if row.operationID == op then if unit.Tokens? then row.tokens else row.micros else 0
  }

  function RowsTotal(s: State, op: string, unit: Unit): int {
    Total(s.rows, RowOf(op, unit))
  }

  function PendingTotal(c: Config, s: State, op: string, unit: Unit): int {
    Total(s.calls, PendingOf(c, op, unit))
  }

  function LostTotal(c: Config, s: State, op: string, unit: Unit): int {
    Total(s.calls, LostOf(c, op, unit))
  }

  function GapTotal(c: Config, s: State, op: string, unit: Unit): int {
    Total(s.calls, GapOf(c, op, unit))
  }

  function UsedAt(s: State, op: string, unit: Unit): int {
    if op in s.budgets then Used(s.budgets[op], unit) else 0
  }

  // ---- what one step does ----

  /** Call `p` is replaced, all others stay. */
  ghost predicate Replaces(s: State, s': State, p: nat, call: Call) {
    p < |s.calls| && s'.calls == s.calls[p := call] && call.request == s.calls[p].request
  }

  lemma TotalsAfter(c: Config, s: State, s': State, p: nat, call: Call, op: string, unit: Unit)
    requires Replaces(s, s', p, call)
    ensures InFlightCount(s', op) == InFlightCount(s, op) - FlightCount(op)(s.calls[p]) + FlightCount(op)(call)
    ensures PendingTotal(c, s', op, unit)
         == PendingTotal(c, s, op, unit) - PendingOf(c, op, unit)(s.calls[p]) + PendingOf(c, op, unit)(call)
    ensures LostTotal(c, s', op, unit)
         == LostTotal(c, s, op, unit) - LostOf(c, op, unit)(s.calls[p]) + LostOf(c, op, unit)(call)
    ensures GapTotal(c, s', op, unit)
         == GapTotal(c, s, op, unit) - GapOf(c, op, unit)(s.calls[p]) + GapOf(c, op, unit)(call)
  {
    TotalUpdate(s.calls, p, call, FlightCount(op));
    TotalUpdate(s.calls, p, call, PendingOf(c, op, unit));
    TotalUpdate(s.calls, p, call, LostOf(c, op, unit));
    TotalUpdate(s.calls, p, call, GapOf(c, op, unit));
  }

  lemma TotalsAfterArrival(c: Config, s: State, r: Request, op: string, unit: Unit)
    ensures var s' := Step(c, s, Arrive(r));
      && InFlightCount(s', op) == InFlightCount(s, op)
      && PendingTotal(c, s', op, unit) == PendingTotal(c, s, op, unit)
      && LostTotal(c, s', op, unit) == LostTotal(c, s, op, unit)
      && GapTotal(c, s', op, unit) == GapTotal(c, s, op, unit)
  {
    var call := Call(r, if r.Issue? then IssueChecking else Verifying, false, None, None);
    TotalAppend(s.calls, call, FlightCount(op));
    TotalAppend(s.calls, call, PendingOf(c, op, unit));
    TotalAppend(s.calls, call, LostOf(c, op, unit));
    TotalAppend(s.calls, call, GapOf(c, op, unit));
  }

  /** A budget as it may be found later: same identity, limits and deadline, usage grown, revocation kept. */
  predicate Continues(a: Budget, b: Budget) {
    && b.id == a.id && b.operationID == a.operationID && b.scope == a.scope && b.deadline == a.deadline
    && b.maxTokens == a.maxTokens && b.maxMicros == a.maxMicros
    && b.usedTokens >= a.usedTokens && b.usedMicros >= a.usedMicros
    && (a.revokedAt.Some? ==> b.revokedAt.Some?)
  }

  ghost predicate Persists(s: State, t: State) {
    forall op :: op in s.budgets ==> op in t.budgets && Continues(s.budgets[op], t.budgets[op])
  }

  /** What every step of call `p` does: it replaces that call only, budgets continue, and the operations
      stay as they are. */
  ghost predicate Own(s: State, s': State, p: nat) {
    && p < |s.calls| && |s'.calls| == |s.calls|
    && s'.calls == s.calls[p := s'.calls[p]] && s'.calls[p].request == s.calls[p].request
    && s'.work == s.work
    && Persists(s, s')
  }

  lemma MoveOwn(s: State, p: nat, stage: Stage)
    requires p < |s.calls|
    ensures Own(s, Move(s, p, stage), p)
  {
  }

  lemma CheckOwn(s: State, p: nat, claims: Claims, b: Budget, now: int)
    requires p < |s.calls|
    ensures Own(s, CheckStep(s, p, claims, b, now), p)
  {
    MoveOwn(s, p, Ended);
    MoveOwn(s, p, Denying);
  }

  lemma RevokeOwn(s: State, p: nat, claims: Claims, now: int, revoked: bool)
    requires p < |s.calls|
    ensures Own(s, RevokeStep(s, p, claims, now, revoked), p)
  {
    MoveOwn(s, p, Ended);
  }

  lemma ChargeOwn(c: Config, s: State, p: nat, claims: Claims, u: Usage)
    requires p < |s.calls|
    ensures Own(s, ChargeStep(c, s, p, claims, u), p)
  {
    MoveOwn(s, p, Revoking);
  }

  lemma RecordOwn(c: Config, s: State, p: nat, claims: Claims, u: Usage, recorded: bool)
    requires p < |s.calls|
    ensures Own(s, RecordStep(c, s, p, claims, u, recorded), p)
  {
  }

  lemma IssueOwn(c: Config, s: State, p: nat, now: int, freshID: string)
    requires p < |s.calls| && s.calls[p].request.Issue?
    ensures Own(s, IssueStep(c, s, p, now, freshID), p)
  {
    MoveOwn(s, p, Ended);
  }

  lemma CompletionOwn(
    c: Config, s: State, p: nat, claims: Claims, now: int, reply: Reply, recorded: bool, revoked: bool)
    requires p < |s.calls|
    ensures Own(s, CompletionStep(c, s, p, claims, now, reply, recorded, revoked), p)
  {
    match s.calls[p].stage
    case Checking(b) => CheckOwn(s, p, claims, b, now);
    case Denying => RevokeOwn(s, p, claims, now, revoked);
    case Charging(u) => ChargeOwn(c, s, p, claims, u);
    case Recording(u) => RecordOwn(c, s, p, claims, u, recorded);
    case Revoking => RevokeOwn(s, p, claims, now, revoked);
    case _ =>
  }

  lemma StepOwn(c: Config, s: State, a: Action)
    requires (a.Advance? || a.Abandon?) && a.caller < |s.calls|
    ensures Own(s, Step(c, s, a), a.caller)
  {
    match a
    case Abandon(p) => MoveOwn(s, p, Ended);
    case Advance(p, now, freshID, reply, recorded, revoked) =>
      match s.calls[p].request {
        case Issue(_, _, _, _, _) => IssueOwn(c, s, p, now, freshID);
        case Completion(claims) => CompletionOwn(c, s, p, claims, now, reply, recorded, revoked);
      }
  }

  /** Every other step leaves all calls there are, and budgets continue. */
  lemma StepOther(c: Config, s: State, a: Action)
    requires !((a.Advance? || a.Abandon?) && a.caller < |s.calls|)
    ensures (!a.Revoke? ==> Step(c, s, a).budgets == s.budgets) && s.calls <= Step(c, s, a).calls
    ensures Persists(s, Step(c, s, a))
    ensures !a.Work? ==> Step(c, s, a).work == s.work
  {
  }

  lemma StepPersists(c: Config, s: State, a: Action)
    ensures Persists(s, Step(c, s, a))
  {
    if (a.Advance? || a.Abandon?) && a.caller < |s.calls| {
      StepOwn(c, s, a);
    } else {
      StepOther(c, s, a);
    }
  }

  // ---- the ledger ----

  /** A call that charged and failed to record is about to revoke or done; what it lost was charged to a
      budget it can revoke. One that recorded is done. */
  ghost predicate CallOK(s: State, call: Call) {
    && (call.request.Issue? ==>
          call.stage in {IssueChecking, IssueCreating, Ended} && call.lost == None && call.booked == None)
    && (call.lost.Some? ==> call.stage in {Revoking, Ended} && call.booked == None)
    && (call.booked.Some? ==> call.stage == Ended)
    && (call.stage.Recording? || call.lost.Some? ==>
          Found(s.budgets, call.request.claims.scope, call.request.claims.operationID).Ok?)
  }

  /** The operation's usages on their way count the same tokens on both sides. */
  predicate CallConsistent(call: Call, op: string) {
    ForOperation(call, op) ==>
      && (call.stage.Charging? ==> Consistent(call.stage.usage))
      && (call.stage.Recording? ==> Consistent(call.stage.usage))
      && (call.booked.Some? ==> Consistent(call.booked.value))
  }

  ghost predicate CallsConsistent(s: State, op: string) {
    forall p :: 0 <= p < |s.calls| ==> CallConsistent(s.calls[p], op)
  }

  ghost predicate LedgerOK(c: Config, s: State, op: string, unit: Unit) {
    UsedAt(s, op, unit)
      == RowsTotal(s, op, unit) + PendingTotal(c, s, op, unit) + LostTotal(c, s, op, unit) + GapTotal(c, s, op, unit)
  }

  ghost predicate CallsOK(s: State) {
    forall p :: 0 <= p < |s.calls| ==> CallOK(s, s.calls[p])
  }

  /** Every usage answered to a call of the operation counts the same tokens on both sides. */
  ghost predicate ConsistentReplies(c: Config, s: State, actions: seq<Action>, op: string)
    decreases |actions|
  {
    actions != [] ==>
      ConsistentReply(s, actions[0], op) && ConsistentReplies(c, Step(c, s, actions[0]), actions[1..], op)
  }

  /** The action answers a call of the operation with a usage. */
  predicate Answers(s: State, a: Action, op: string) {
    && a.Advance? && a.caller < |s.calls| && ForOperation(s.calls[a.caller], op)
    && s.calls[a.caller].stage.Asking? && a.reply.WithUsage?
  }

  predicate ConsistentReply(s: State, a: Action, op: string) {
    Answers(s, a, op) ==> Consistent(Parse(a.reply.raw).0)
  }

  lemma StepConsistent(c: Config, s: State, a: Action, op: string)
    requires CallsConsistent(s, op) && ConsistentReply(s, a, op)
    ensures CallsConsistent(Step(c, s, a), op)
  {
    var s' := Step(c, s, a);
    if (a.Advance? || a.Abandon?) && a.caller < |s.calls| {
      StepReplaces(c, s, a);
      OwnConsistent(c, s, a, op);
    } else {
      StepOther(c, s, a);
    }
    forall p | 0 <= p < |s'.calls| ensures CallConsistent(s'.calls[p], op) {
      if p < |s.calls| && s'.calls[p] == s.calls[p] {
        assert CallConsistent(s.calls[p], op);
      }
    }
  }

  lemma OwnConsistent(c: Config, s: State, a: Action, op: string)
    requires CallsConsistent(s, op) && ConsistentReply(s, a, op)
    requires (a.Advance? || a.Abandon?) && a.caller < |s.calls|
    ensures var s' := Step(c, s, a); a.caller < |s'.calls| && CallConsistent(s'.calls[a.caller], op)
  {
    var call := s.calls[a.caller];
    assert CallConsistent(call, op);
    if a.Advance? && call.request.Completion? {
      CompletionConsistent(c, s, a.caller, call.request.claims, a.now, a.reply, a.recorded, a.revoked, op);
    }
  }

  lemma CompletionConsistent(
    c: Config, s: State, p: nat, claims: Claims, now: int, reply: Reply, recorded: bool, revoked: bool, op: string)
    requires p < |s.calls| && s.calls[p].request == Completion(claims) && CallConsistent(s.calls[p], op)
    requires s.calls[p].stage.Asking? && claims.operationID == op && reply.WithUsage? ==> Consistent(Parse(reply.raw).0)
    ensures var s' := CompletionStep(c, s, p, claims, now, reply, recorded, revoked);
      p < |s'.calls| && CallConsistent(s'.calls[p], op)
  {
    var s' := CompletionStep(c, s, p, claims, now, reply, recorded, revoked);
    match s.calls[p].stage
    case Asking => assert s'.calls[p].stage == Received(reply);
    case Charging(u) => assert s'.calls[p].stage in {Recording(u), Revoking};
    case Recording(u) => assert s'.calls[p].stage in {Ended, Revoking};
    case _ => assert !s'.calls[p].stage.Charging? && !s'.calls[p].stage.Recording?;
  }

  lemma StepCalls(c: Config, s: State, a: Action)
    requires CallsOK(s)
    ensures CallsOK(Step(c, s, a))
  {
    var s' := Step(c, s, a);
    StepPersists(c, s, a);
    if (a.Advance? || a.Abandon?) && a.caller < |s.calls| {
      StepReplaces(c, s, a);
      StepOwnCall(c, s, a);
    }
    forall p | 0 <= p < |s'.calls| ensures CallOK(s', s'.calls[p]) {
      if p < |s.calls| && s'.calls[p] == s.calls[p] {
        OtherCall(s, s', s.calls[p]);
      }
    }
  }

  lemma StepReplaces(c: Config, s: State, a: Action)
    requires (a.Advance? || a.Abandon?) && a.caller < |s.calls|
    ensures |Step(c, s, a).calls| == |s.calls| && Replaces(s, Step(c, s, a), a.caller, Step(c, s, a).calls[a.caller])
  {
    StepOwn(c, s, a);
  }

  lemma OtherCall(s: State, s': State, call: Call)
    requires CallOK(s, call) && Persists(s, s')
    ensures CallOK(s', call)
  {
  }

  lemma StepOwnCall(c: Config, s: State, a: Action)
    requires CallsOK(s) && (a.Advance? || a.Abandon?) && a.caller < |s.calls|
    ensures a.caller < |Step(c, s, a).calls| && CallOK(Step(c, s, a), Step(c, s, a).calls[a.caller])
  {
    var call := s.calls[a.caller];
    assert CallOK(s, call);
    if a.Advance? && call.request.Completion? {
      CompletionOwnCall(c, s, a.caller, call.request.claims, a.now, a.reply, a.recorded, a.revoked);
    }
  }

  lemma CompletionOwnCall(
    c: Config, s: State, p: nat, claims: Claims, now: int, reply: Reply, recorded: bool, revoked: bool)
    requires p < |s.calls| && CallOK(s, s.calls[p]) && s.calls[p].request == Completion(claims)
    ensures var s' := CompletionStep(c, s, p, claims, now, reply, recorded, revoked);
      p < |s'.calls| && CallOK(s', s'.calls[p])
  {
    match s.calls[p].stage
    case Charging(u) =>
      var s' := ChargeStep(c, s, p, claims, u);
      assert CallOK(s', s'.calls[p]);
    case Recording(u) =>
      var s' := RecordStep(c, s, p, claims, u, recorded);
      assert CallOK(s', s'.calls[p]);
    case Revoking => RevokeOwnCall(s, p, claims, now, revoked);
    case Denying => RevokeOwnCall(s, p, claims, now, revoked);
    case Checking(b) =>
      var s' := CheckStep(s, p, claims, b, now);
      assert CallOK(s', s'.calls[p]);
    case _ =>
  }

  lemma RevokeOwnCall(s: State, p: nat, claims: Claims, now: int, revoked: bool)
    requires p < |s.calls| && CallOK(s, s.calls[p]) && s.calls[p].request == Completion(claims)
    requires s.calls[p].stage in {Revoking, Denying}
    ensures var s' := RevokeStep(s, p, claims, now, revoked);
      p < |s'.calls| && CallOK(s', s'.calls[p])
  {
  }

  lemma ChargeLedger(c: Config, s: State, p: nat, u: Usage, op: string, unit: Unit)
    requires CallsOK(s) && LedgerOK(c, s, op, unit)
    requires p < |s.calls| && s.calls[p].request.Completion? && s.calls[p].stage == Charging(u)
    ensures LedgerOK(c, ChargeStep(c, s, p, s.calls[p].request.claims, u), op, unit)
  {
    var s' := ChargeStep(c, s, p, s.calls[p].request.claims, u);
    assert CallOK(s, s.calls[p]);
    TotalsAfter(c, s, s', p, s'.calls[p], op, unit);
  }

  lemma RecordLedger(c: Config, s: State, p: nat, u: Usage, recorded: bool, op: string, unit: Unit)
    requires CallsOK(s) && LedgerOK(c, s, op, unit)
    requires p < |s.calls| && s.calls[p].request.Completion? && s.calls[p].stage == Recording(u)
    ensures LedgerOK(c, RecordStep(c, s, p, s.calls[p].request.claims, u, recorded), op, unit)
  {
    var claims := s.calls[p].request.claims;
    var s' := RecordStep(c, s, p, claims, u, recorded);
    assert CallOK(s, s.calls[p]);
    TotalsAfter(c, s, s', p, s'.calls[p], op, unit);
    if recorded && claims.scope != "" {
      var row := RowFor(c.rate, claims.scope, claims.operationID, u);
      TotalAppend(s.rows, row, RowOf(op, unit));
    }
  }

  /** Every other step of a call leaves usage, rows, pending and lost amounts alone. */
  lemma QuietLedger(c: Config, s: State, a: Action, op: string, unit: Unit)
    requires CallsOK(s) && LedgerOK(c, s, op, unit)
    requires a.Advance? || a.Abandon?
    requires a.caller < |s.calls| && !s.calls[a.caller].stage.Charging? && !s.calls[a.caller].stage.Recording?
    ensures LedgerOK(c, Step(c, s, a), op, unit)
  {
    var s', p := Step(c, s, a), a.caller;
    QuietStep(c, s, a, op, unit);
    StepReplaces(c, s, a);
    TotalsAfter(c, s, s', p, s'.calls[p], op, unit);
  }

  lemma QuietStep(c: Config, s: State, a: Action, op: string, unit: Unit)
    requires CallsOK(s)
    requires a.Advance? || a.Abandon?
    requires a.caller < |s.calls| && !s.calls[a.caller].stage.Charging? && !s.calls[a.caller].stage.Recording?
    ensures var s' := Step(c, s, a);
      && UsedAt(s', op, unit) == UsedAt(s, op, unit) && s'.rows == s.rows
      && |s'.calls| == |s.calls|
      && !s'.calls[a.caller].stage.Recording? && s'.calls[a.caller].lost == s.calls[a.caller].lost
      && s'.calls[a.caller].booked == s.calls[a.caller].booked
  {
    assert CallOK(s, s.calls[a.caller]);
  }

  lemma StepLedger(c: Config, s: State, a: Action, op: string, unit: Unit)
    requires CallsOK(s) && LedgerOK(c, s, op, unit)
    ensures LedgerOK(c, Step(c, s, a), op, unit)
  {
    match a
    case Work(_) =>
    case Arrive(r) => TotalsAfterArrival(c, s, r, op, unit);
    case Abandon(p) =>
      if p < |s.calls| && !s.calls[p].stage.Charging? && !s.calls[p].stage.Recording? {
        QuietLedger(c, s, a, op, unit);
      }
    case Advance(p, now, freshID, reply, recorded, revoked) =>
      if p < |s.calls| {
        assert CallOK(s, s.calls[p]);
        match s.calls[p].stage {
          case Charging(u) => ChargeLedger(c, s, p, u, op, unit);
          case Recording(u) => RecordLedger(c, s, p, u, recorded, op, unit);
          case _ => QuietLedger(c, s, a, op, unit);
        }
      }
    case Revoke(_, _, _) => RevokedUsage(s, a.scope, a.operationID, a.now, op, unit);
  }

  lemma RevokedUsage(s: State, scope: string, operationID: string, now: int, op: string, unit: Unit)
    ensures var budgets := WithRevocation(s.budgets, scope, operationID, now);
      UsedAt(s.(budgets := budgets), op, unit) == UsedAt(s, op, unit)
  {
  }

  lemma {:induction false} ExecLedger(c: Config, s: State, actions: seq<Action>, op: string, unit: Unit)
    requires CallsOK(s) && LedgerOK(c, s, op, unit)
    ensures CallsOK(Exec(c, s, actions)) && LedgerOK(c, Exec(c, s, actions), op, unit)
    decreases |actions|
  {
    if actions != [] {
      StepCalls(c, s, actions[0]);
      StepLedger(c, s, actions[0], op, unit);
      ExecLedger(c, Step(c, s, actions[0]), actions[1..], op, unit);
    }
  }

  lemma {:induction false} ExecConsistent(c: Config, s: State, actions: seq<Action>, op: string)
    requires CallsConsistent(s, op) && ConsistentReplies(c, s, actions, op)
    ensures CallsConsistent(Exec(c, s, actions), op)
    decreases |actions|
  {
    if actions != [] {
      StepConsistent(c, s, actions[0], op);
      ExecConsistent(c, Step(c, s, actions[0]), actions[1..], op);
    }
  }

  /** Conservation across the two stores, with no condition on the replies: at every moment of every run, what
      an operation has used is what its usage rows sum to, plus the calls charged but not yet recorded, plus
      the calls whose recording failed, plus what the recorded calls were charged beyond their rows. */
  lemma LedgerAgrees(c: Config, actions: seq<Action>, op: string, unit: Unit)
    ensures LedgerOK(c, Exec(c, Init(), actions), op, unit)
  {
    ExecLedger(c, Init(), actions, op, unit);
  }

  /** The last part is nothing for cost, and for tokens when the replies count alike on both sides. */
  lemma NoGap(c: Config, actions: seq<Action>, op: string, unit: Unit)
    requires ValidConfig(c) && (unit.Tokens? ==> ConsistentReplies(c, Init(), actions, op))
    ensures GapTotal(c, Exec(c, Init(), actions), op, unit) == 0
  {
    var s := Exec(c, Init(), actions);
    if unit.Tokens? {
      ExecConsistent(c, Init(), actions, op);
    }
    forall p | 0 <= p < |s.calls| ensures GapOf(c, op, unit)(s.calls[p]) == 0 {
      if s.calls[p].booked.Some? {
        ChargeMatchesRow(c.rate, "", "", s.calls[p].booked.value);
        assert unit.Tokens? ==> CallConsistent(s.calls[p], op);
      }
    }
    TotalZero(s.calls, GapOf(c, op, unit));
  }

  // ---- accounting failures revoke ----

  /** No call of the operation is between charging and the end of its accounting. */
  ghost predicate Quiescent(s: State, op: string) {
    forall p :: 0 <= p < |s.calls| && ForOperation(s.calls[p], op) ==>
      s.calls[p].stage != Revoking && !s.calls[p].stage.Recording?
  }

  predicate BudgetRevoked(s: State, op: string) {
    op in s.budgets && s.budgets[op].revokedAt.Some?
  }

  /** The action stores a revocation of the operation's budget: that of a refused or a failed call, or the
      workflow's. */
  predicate Revokes(s: State, a: Action, op: string) {
    || (a.Revoke? && a.operationID == op && Found(s.budgets, a.scope, op).Ok?)
    || (&& a.Advance? && a.caller < |s.calls| && ForOperation(s.calls[a.caller], op)
        && s.calls[a.caller].stage in {Denying, Revoking} && a.revoked
        && Found(s.budgets, s.calls[a.caller].request.claims.scope, op).Ok?)
  }

  /** Some action of the run does. */
  predicate EverRevokes(c: Config, s: State, actions: seq<Action>, op: string)
    decreases |actions|
  {
    actions != [] && (Revokes(s, actions[0], op) || EverRevokes(c, Step(c, s, actions[0]), actions[1..], op))
  }

  lemma StepRevokes(c: Config, s: State, a: Action, op: string)
    ensures BudgetRevoked(Step(c, s, a), op) <==> BudgetRevoked(s, op) || Revokes(s, a, op)
  {
    if (a.Advance? || a.Abandon?) && a.caller < |s.calls| {
      if a.Advance? && s.calls[a.caller].request.Completion? {
        CompletionRevokes(c, s, a.caller, s.calls[a.caller].request.claims, a, op);
      }
    } else {
      StepOther(c, s, a);
    }
  }

  lemma CompletionRevokes(c: Config, s: State, p: nat, claims: Claims, a: Action, op: string)
    requires a.Advance? && a.caller == p && p < |s.calls| && s.calls[p].request == Completion(claims)
    ensures var s' := CompletionStep(c, s, p, claims, a.now, a.reply, a.recorded, a.revoked);
      BudgetRevoked(s', op) <==> BudgetRevoked(s, op) || Revokes(s, a, op)
  {
    var s' := CompletionStep(c, s, p, claims, a.now, a.reply, a.recorded, a.revoked);
    match s.calls[p].stage
    case Checking(_) => assert s'.budgets == s.budgets;
    case Recording(_) => assert s'.budgets == s.budgets;
    case _ =>
  }

  lemma {:induction false} ExecRevokes(c: Config, s: State, actions: seq<Action>, op: string)
    ensures BudgetRevoked(Exec(c, s, actions), op) <==> BudgetRevoked(s, op) || EverRevokes(c, s, actions, op)
    decreases |actions|
  {
    if actions != [] {
      StepRevokes(c, s, actions[0], op);
      ExecRevokes(c, Step(c, s, actions[0]), actions[1..], op);
    }
  }

  /** At rest the stores differ by exactly what was charged and failed to be recorded, and what was charged
      beyond the rows. */
  lemma AtRestDifference(c: Config, actions: seq<Action>, op: string, unit: Unit)
    requires Quiescent(Exec(c, Init(), actions), op)
    ensures var s := Exec(c, Init(), actions);
      UsedAt(s, op, unit) - RowsTotal(s, op, unit) == LostTotal(c, s, op, unit) + GapTotal(c, s, op, unit)
  {
    ExecLedger(c, Init(), actions, op, unit);
    TotalZero(Exec(c, Init(), actions).calls, PendingOf(c, op, unit));
  }

  /** Exactly when, at rest, budget and ledger agree or the budget is revoked: when that is nothing, or some
      revocation of this operation was stored, by whichever call or by the workflow. */
  lemma AgreesOrRevokedIff(c: Config, actions: seq<Action>, op: string, unit: Unit)
    requires Quiescent(Exec(c, Init(), actions), op)
    ensures var s := Exec(c, Init(), actions);
      UsedAt(s, op, unit) == RowsTotal(s, op, unit) || BudgetRevoked(s, op) <==>
      LostTotal(c, s, op, unit) + GapTotal(c, s, op, unit) == 0 || EverRevokes(c, Init(), actions, op)
  {
    AtRestDifference(c, actions, op, unit);
    ExecRevokes(c, Init(), actions, op);
  }

  /** A call of the operation attempts the revocation that follows a failed accounting. */
  predicate Accounts(s: State, a: Action, op: string) {
    && a.Advance? && a.caller < |s.calls| && ForOperation(s.calls[a.caller], op)
    && s.calls[a.caller].stage == Revoking
  }

  /** All revocations that follow a failed accounting of this operation are stored. */
  ghost predicate RevocationsStored(c: Config, s: State, actions: seq<Action>, op: string)
    decreases |actions|
  {
    actions != [] ==>
      && (Accounts(s, actions[0], op) ==> actions[0].revoked)
      && RevocationsStored(c, Step(c, s, actions[0]), actions[1..], op)
  }

  /** A call of the operation that lost its row has revoked the budget, or is about to. */
  ghost predicate LostRevokes(s: State, call: Call, op: string) {
    ForOperation(call, op) && call.lost.Some? && call.stage == Ended ==> BudgetRevoked(s, op)
  }

  ghost predicate AllLostRevoke(s: State, op: string) {
    forall p :: 0 <= p < |s.calls| ==> LostRevokes(s, s.calls[p], op)
  }

  lemma StepLostRevokes(c: Config, s: State, a: Action, op: string)
    requires CallsOK(s) && AllLostRevoke(s, op) && RevocationsStored(c, s, [a], op)
    ensures AllLostRevoke(Step(c, s, a), op)
  {
    var s' := Step(c, s, a);
    StepPersists(c, s, a);
    if (a.Advance? || a.Abandon?) && a.caller < |s.calls| {
      StepReplaces(c, s, a);
      OwnLostRevokes(c, s, a, op);
    } else {
      StepOther(c, s, a);
    }
    forall p | 0 <= p < |s'.calls| ensures LostRevokes(s', s'.calls[p], op) {
      if p < |s.calls| && s'.calls[p] == s.calls[p] {
        assert LostRevokes(s, s.calls[p], op);
      }
    }
  }

  lemma OwnLostRevokes(c: Config, s: State, a: Action, op: string)
    requires CallsOK(s) && AllLostRevoke(s, op) && RevocationsStored(c, s, [a], op)
    requires (a.Advance? || a.Abandon?) && a.caller < |s.calls|
    requires Persists(s, Step(c, s, a))
    ensures a.caller < |Step(c, s, a).calls| && LostRevokes(Step(c, s, a), Step(c, s, a).calls[a.caller], op)
  {
    var call := s.calls[a.caller];
    assert CallOK(s, call) && LostRevokes(s, call, op);
    StepRevokes(c, s, a, op);
    if !call.stage.Charging? && !call.stage.Recording? {
      QuietStep(c, s, a, op, Tokens);
    }
  }

  lemma {:induction false} ExecLostRevokes(c: Config, s: State, actions: seq<Action>, op: string)
    requires CallsOK(s) && AllLostRevoke(s, op) && RevocationsStored(c, s, actions, op)
    ensures CallsOK(Exec(c, s, actions)) && AllLostRevoke(Exec(c, s, actions), op)
    decreases |actions|
  {
    if actions != [] {
      StepCalls(c, s, actions[0]);
      assert RevocationsStored(c, s, [actions[0]], op);
      StepLostRevokes(c, s, actions[0], op);
      ExecLostRevokes(c, Step(c, s, actions[0]), actions[1..], op);
    }
  }

  /** What the relay does about a lost row is enough: when the revocations it then attempts for this operation
      are stored, at rest the budget is revoked, or the stores differ by no more than the recorded calls were
      charged beyond their rows. */
  lemma QuiescentAgreesOrRevoked(c: Config, actions: seq<Action>, op: string, unit: Unit)
    requires RevocationsStored(c, Init(), actions, op) && Quiescent(Exec(c, Init(), actions), op)
    ensures var s := Exec(c, Init(), actions);
      UsedAt(s, op, unit) == RowsTotal(s, op, unit) + GapTotal(c, s, op, unit) || BudgetRevoked(s, op)
  {
    AtRestDifference(c, actions, op, unit);
    ExecLostRevokes(c, Init(), actions, op);
    var s := Exec(c, Init(), actions);
    if p :| 0 <= p < |s.calls| && ForOperation(s.calls[p], op) && s.calls[p].lost.Some? {
      assert CallOK(s, s.calls[p]) && LostRevokes(s, s.calls[p], op);
    } else {
      TotalZero(s.calls, LostOf(c, op, unit));
    }
  }

  // ---- the overshoot bound ----

  /** At most `calls` in flight, each charging at most `tokens` and `micros`. */
  datatype Limits = Limits(calls: int, tokens: int, micros: int)

  function Limit(l: Limits, unit: Unit): int {
    if unit.Tokens? then l.tokens else l.micros
  }

  predicate WithinLimits(c: Config, l: Limits, u: Usage) {
    ChargeIn(c, u, Tokens) <= l.tokens && ChargeIn(c, u, Micros) <= l.micros
  }

  /** In every state of the run at most `calls` calls of the operation are in flight, and no reply to one of
      them is charged more than the limits. */
  ghost predicate Modest(c: Config, s: State, actions: seq<Action>, op: string, l: Limits)
    decreases |actions|
  {
    && InFlightCount(s, op) <= l.calls
    && (actions != [] ==>
          && (Answers(s, actions[0], op) ==> WithinLimits(c, l, Parse(actions[0].reply.raw).0))
          && Modest(c, Step(c, s, actions[0]), actions[1..], op, l))
  }

  /** A budget as an in-flight call read it is an earlier state of the stored one. */
  ghost predicate FlightOK(c: Config, s: State, l: Limits, op: string, call: Call) {
    && (call.request.Issue? ==> call.stage in {IssueChecking, IssueCreating, Ended})
    && (call.stage.Charging? && ForOperation(call, op) ==> WithinLimits(c, l, call.stage.usage))
    && (call.stage.Asking? || call.stage.Charging? ==>
          Found(s.budgets, call.request.claims.scope, call.request.claims.operationID).Ok?)
    && (call.stage.Checking? ==>
          && Found(s.budgets, call.request.claims.scope, call.request.claims.operationID).Ok?
          && Continues(call.stage.budget, s.budgets[call.request.claims.operationID]))
  }

  ghost predicate FlightsOK(c: Config, s: State, l: Limits, op: string) {
    forall p :: 0 <= p < |s.calls| ==> FlightOK(c, s, l, op, s.calls[p])
  }

  /** Usage plus what the calls in flight may still add stays below the ceiling plus the overshoot. */
  ghost predicate BoundOK(s: State, op: string, l: Limits, unit: Unit) {
    if op in s.budgets then
      Used(s.budgets[op], unit) + InFlightCount(s, op) * Limit(l, unit)
        <= Ceiling(s.budgets[op], unit) - 1 + l.calls * Limit(l, unit)
    else InFlightCount(s, op) == 0
  }

  lemma StepFlights(c: Config, s: State, a: Action, l: Limits, op: string)
    requires FlightsOK(c, s, l, op)
    requires Answers(s, a, op) ==> WithinLimits(c, l, Parse(a.reply.raw).0)
    ensures FlightsOK(c, Step(c, s, a), l, op)
  {
    var s' := Step(c, s, a);
    StepPersists(c, s, a);
    if (a.Advance? || a.Abandon?) && a.caller < |s.calls| {
      StepReplaces(c, s, a);
      OwnFlight(c, s, a, l, op);
    }
    forall p | 0 <= p < |s'.calls| ensures FlightOK(c, s', l, op, s'.calls[p]) {
      if p < |s.calls| && s'.calls[p] == s.calls[p] {
        OtherFlight(c, s, s', l, op, s.calls[p]);
      }
    }
  }

  lemma OtherFlight(c: Config, s: State, s': State, l: Limits, op: string, call: Call)
    requires FlightOK(c, s, l, op, call) && Persists(s, s')
    ensures FlightOK(c, s', l, op, call)
  {
  }

  lemma OwnFlight(c: Config, s: State, a: Action, l: Limits, op: string)
    requires FlightsOK(c, s, l, op) && (a.Advance? || a.Abandon?) && a.caller < |s.calls|
    requires Answers(s, a, op) ==> WithinLimits(c, l, Parse(a.reply.raw).0)
    ensures a.caller < |Step(c, s, a).calls| && FlightOK(c, Step(c, s, a), l, op, Step(c, s, a).calls[a.caller])
  {
    var call := s.calls[a.caller];
    assert FlightOK(c, s, l, op, call);
    if a.Advance? && call.request.Completion? {
      CompletionFlight(c, s, a.caller, call.request.claims, a.now, a.reply, a.recorded, a.revoked, l, op);
    }
  }

  lemma CompletionFlight(
    c: Config, s: State, p: nat, claims: Claims, now: int, reply: Reply, recorded: bool, revoked: bool, l: Limits,
    op: string)
    requires p < |s.calls| && FlightOK(c, s, l, op, s.calls[p]) && s.calls[p].request == Completion(claims)
    requires s.calls[p].stage.Asking? && claims.operationID == op && reply.WithUsage? ==>
      WithinLimits(c, l, Parse(reply.raw).0)
    ensures var s' := CompletionStep(c, s, p, claims, now, reply, recorded, revoked);
      p < |s'.calls| && FlightOK(c, s', l, op, s'.calls[p])
  {
    var s' := CompletionStep(c, s, p, claims, now, reply, recorded, revoked);
    match s.calls[p].stage
    case Fetching => assert FlightOK(c, s', l, op, s'.calls[p]);
    case Checking(b) => assert FlightOK(c, s', l, op, s'.calls[p]);
    case Asking => assert FlightOK(c, s', l, op, s'.calls[p]);
    case Charging(u) => assert s'.calls[p].stage in {Recording(u), Revoking};
    case Denying => assert s'.calls[p].stage == Ended;
    case Revoking => assert s'.calls[p].stage == Ended;
    case _ =>
  }

  /** How one step moves the two sides of the bound: a charge trades one call in flight for at most the
      limit, a budget read with room adds a call while usage is below the ceiling, a budget is created
      empty, and nothing else adds usage or calls. */
  lemma StepBound(c: Config, s: State, a: Action, op: string, l: Limits, unit: Unit)
    requires ValidConfig(c) && FlightsOK(c, s, l, op) && BoundOK(s, op, l, unit)
    requires l.calls >= 0 && Limit(l, unit) >= 0
    requires InFlightCount(Step(c, s, a), op) <= l.calls
    ensures BoundOK(Step(c, s, a), op, l, unit)
  {
    match a
    case Work(_) =>
    case Arrive(r) => TotalsAfterArrival(c, s, r, op, unit);
    case Abandon(p) => if p < |s.calls| { CallBound(c, s, a, op, l, unit); }
    case Advance(p, _, _, _, _, _) => if p < |s.calls| { CallBound(c, s, a, op, l, unit); }
    case Revoke(_, _, _) => RevokedUsage(s, a.scope, a.operationID, a.now, op, unit);
  }

  lemma CallBound(c: Config, s: State, a: Action, op: string, l: Limits, unit: Unit)
    requires ValidConfig(c) && FlightsOK(c, s, l, op) && BoundOK(s, op, l, unit)
    requires l.calls >= 0 && Limit(l, unit) >= 0
    requires (a.Advance? || a.Abandon?) && a.caller < |s.calls|
    requires InFlightCount(Step(c, s, a), op) <= l.calls
    ensures BoundOK(Step(c, s, a), op, l, unit)
  {
    var s', p := Step(c, s, a), a.caller;
    StepReplaces(c, s, a);
    TotalsAfter(c, s, s', p, s'.calls[p], op, unit);
    UsageMoves(c, s, a, op, l, unit);
    var n, n', d := InFlightCount(s, op), InFlightCount(s', op), Limit(l, unit);
    Products(n, n', l.calls, d);
    assert n' == n - FlightCount(op)(s.calls[p]) + FlightCount(op)(s'.calls[p]);
  }

  lemma Products(n: int, n': int, k: int, d: int)
    requires d >= 0
    ensures n' <= k ==> n' * d <= k * d
    ensures n' <= n ==> n' * d <= n * d
    ensures n' <= n - 1 ==> n' * d <= n * d - d
  {
    Scale(n', k, d);
    Scale(n', n, d);
    Scale(n', n - 1, d);
    assert (n - 1) * d == n * d - d;
  }

  lemma Scale(a: int, b: int, d: int)
    requires d >= 0
    ensures a <= b ==> a * d <= b * d
  {
    if a <= b {
      assert b * d - a * d == (b - a) * d;
    }
  }

  /** The three ways a step of a call can matter to the bound. */
  lemma UsageMoves(c: Config, s: State, a: Action, op: string, l: Limits, unit: Unit)
    requires ValidConfig(c) && FlightsOK(c, s, l, op)
    requires (a.Advance? || a.Abandon?) && a.caller < |s.calls|
    ensures var s' := Step(c, s, a);
      var before, after := InFlight(s.calls[a.caller], op), |s'.calls| == |s.calls| && InFlight(s'.calls[a.caller], op);
      && (before ==> op in s.budgets)
      && (after ==> op in s.budgets)
      && (op !in s.budgets && op in s'.budgets ==>
            Used(s'.budgets[op], unit) == 0 && Ceiling(s'.budgets[op], unit) >= 1)
      && (op in s.budgets ==>
            && op in s'.budgets && Ceiling(s'.budgets[op], unit) == Ceiling(s.budgets[op], unit)
            && (after && !before ==>
                  Used(s'.budgets[op], unit) == Used(s.budgets[op], unit) < Ceiling(s.budgets[op], unit))
            && (Used(s'.budgets[op], unit) != Used(s.budgets[op], unit) ==>
                  before && !after && Used(s'.budgets[op], unit) <= Used(s.budgets[op], unit) + Limit(l, unit)))
  {
    var call := s.calls[a.caller];
    assert FlightOK(c, s, l, op, call);
    StepReplaces(c, s, a);
    if a.Advance? && call.request.Completion? {
      CompletionMoves(c, s, a.caller, call.request.claims, a.now, a.reply, a.recorded, a.revoked, op, l, unit);
    }
  }

  lemma CompletionMoves(
    c: Config, s: State, p: nat, claims: Claims, now: int, reply: Reply, recorded: bool, revoked: bool,
    op: string, l: Limits, unit: Unit)
    requires p < |s.calls| && FlightOK(c, s, l, op, s.calls[p]) && s.calls[p].request == Completion(claims)
    ensures var s' := CompletionStep(c, s, p, claims, now, reply, recorded, revoked);
      |s'.calls| == |s.calls| &&
      var before, after := InFlight(s.calls[p], op), InFlight(s'.calls[p], op);
      && s'.budgets.Keys == s.budgets.Keys
      && (before || after ==> op in s.budgets)
      && (op in s.budgets ==>
            && Ceiling(s'.budgets[op], unit) == Ceiling(s.budgets[op], unit)
            && (after && !before ==>
                  Used(s'.budgets[op], unit) == Used(s.budgets[op], unit) < Ceiling(s.budgets[op], unit))
            && (Used(s'.budgets[op], unit) != Used(s.budgets[op], unit) ==>
                  before && !after && Used(s'.budgets[op], unit) <= Used(s.budgets[op], unit) + Limit(l, unit)))
  {
    var s' := CompletionStep(c, s, p, claims, now, reply, recorded, revoked);
    match s.calls[p].stage
    case Fetching => assert s'.budgets == s.budgets;
    case Checking(b) => assert s'.budgets == s.budgets;
    case Asking => assert s'.budgets == s.budgets;
    case Charging(u) => assert s'.budgets.Keys == s.budgets.Keys;
    case Recording(u) => assert s'.budgets == s.budgets;
    case Denying => assert s'.budgets.Keys == s.budgets.Keys;
    case Revoking => assert s'.budgets.Keys == s.budgets.Keys;
    case _ => assert s'.budgets == s.budgets;
  }

  lemma {:induction false} ExecBound(c: Config, s: State, actions: seq<Action>, op: string, l: Limits, unit: Unit)
    requires ValidConfig(c) && FlightsOK(c, s, l, op) && BoundOK(s, op, l, unit)
    requires l.calls >= 0 && Limit(l, unit) >= 0
    requires Modest(c, s, actions, op, l)
    ensures BoundOK(Exec(c, s, actions), op, l, unit)
    decreases |actions|
  {
    if actions != [] {
      StepFlights(c, s, actions[0], l, op);
      StepBound(c, s, actions[0], op, l, unit);
      ExecBound(c, Step(c, s, actions[0]), actions[1..], op, l, unit);
    }
  }

  /** If at most k calls of an operation are ever between their budget read and their accounting, and none
      charges more than d, the usage never exceeds the ceiling minus one plus k times d, in tokens and in
      cost. */
  lemma OvershootBound(c: Config, actions: seq<Action>, op: string, l: Limits, unit: Unit)
    requires ValidConfig(c) && l.calls >= 0 && Limit(l, unit) >= 0
    requires Modest(c, Init(), actions, op, l)
    ensures var s := Exec(c, Init(), actions);
      op in s.budgets ==> Used(s.budgets[op], unit) <= Ceiling(s.budgets[op], unit) - 1 + l.calls * Limit(l, unit)
  {
    ExecBound(c, Init(), actions, op, l, unit);
    var s := Exec(c, Init(), actions);
    TotalNonNegative(s.calls, FlightCount(op));
    Products(InFlightCount(s, op), 0, l.calls, Limit(l, unit));
  }

  // ---- authorization fails closed ----

  /** The call got past the point where a revocation can stop it: its budget read, or authorization. */
  predicate PastRead(call: Call) {
    call.authorized || call.stage.Checking?
  }

  /** What one step changes in what its call may do: it is authorized only while the operation is active,
      and gets past its budget read only while the budget is not revoked. */
  lemma StepGrants(c: Config, s: State, a: Action, q: nat)
    requires q < |Step(c, s, a).calls|
    ensures var s' := Step(c, s, a);
      (q < |s.calls| && s'.calls[q].request == s.calls[q].request) || (q == |s.calls| && !PastRead(s'.calls[q]))
    ensures q < |s.calls| ==> Grants(s, s.calls[q], Step(c, s, a).calls[q])
  {
    if (a.Advance? || a.Abandon?) && a.caller < |s.calls| {
      StepReplaces(c, s, a);
      if q == a.caller && a.Advance? && s.calls[q].request.Completion? {
        CompletionGrants(c, s, q, s.calls[q].request.claims, a.now, a.reply, a.recorded, a.revoked);
      }
    }
  }

  ghost predicate Grants(s: State, old_: Call, new_: Call) {
    new_.request.Completion? ==>
      var claims := new_.request.claims;
      && (new_.authorized && !old_.authorized ==>
            old_.stage.Checking? && OperationActive(s, claims.scope, claims.operationID))
      && (PastRead(new_) && !PastRead(old_) ==>
            claims.operationID in s.budgets && s.budgets[claims.operationID].revokedAt == None
            && s.budgets[claims.operationID].id == claims.budgetID)
  }

  lemma CompletionGrants(
    c: Config, s: State, p: nat, claims: Claims, now: int, reply: Reply, recorded: bool, revoked: bool)
    requires p < |s.calls| && s.calls[p].request == Completion(claims)
    ensures var s' := CompletionStep(c, s, p, claims, now, reply, recorded, revoked);
      p < |s'.calls| && Grants(s, s.calls[p], s'.calls[p])
  {
    var s' := CompletionStep(c, s, p, claims, now, reply, recorded, revoked);
    match s.calls[p].stage
    case Charging(u) => assert s'.calls[p].authorized == s.calls[p].authorized;
    case Recording(u) => assert s'.calls[p].authorized == s.calls[p].authorized;
    case Checking(b) => assert Grants(s, s.calls[p], s'.calls[p]);
    case _ =>
  }

  /** No call for the operation gets authorized that was not authorized before. */
  ghost predicate NoneAuthorizedSince(s: State, t: State, op: string) {
    && |s.calls| <= |t.calls|
    && (forall q :: 0 <= q < |s.calls| ==> t.calls[q].request == s.calls[q].request)
    && (forall q :: 0 <= q < |t.calls| && ForOperation(t.calls[q], op) && t.calls[q].authorized ==>
          q < |s.calls| && s.calls[q].authorized)
  }

  /** No call for the operation gets past its budget read that was not past it before. */
  ghost predicate NoneReadSince(s: State, t: State, op: string) {
    && |s.calls| <= |t.calls|
    && (forall q :: 0 <= q < |s.calls| ==> t.calls[q].request == s.calls[q].request)
    && (forall q :: 0 <= q < |t.calls| && ForOperation(t.calls[q], op) && PastRead(t.calls[q]) ==>
          q < |s.calls| && PastRead(s.calls[q]))
  }

  predicate OperationEnded(s: State, op: string) {
    op in s.work.operations && WS.IsTerminal(s.work.operations[op].status)
  }

  lemma StepFailsClosed(c: Config, s: State, a: Action, op: string)
    requires OperationEnded(s, op)
    ensures NoneAuthorizedSince(s, Step(c, s, a), op)
  {
    var t := Step(c, s, a);
    StepGrows(c, s, a);
    forall q | 0 <= q < |t.calls| && ForOperation(t.calls[q], op) && t.calls[q].authorized
      ensures q < |s.calls| && s.calls[q].authorized
    {
      StepGrants(c, s, a, q);
    }
  }

  lemma StepGrows(c: Config, s: State, a: Action)
    ensures |s.calls| <= |Step(c, s, a).calls|
    ensures forall q :: 0 <= q < |s.calls| ==> Step(c, s, a).calls[q].request == s.calls[q].request
  {
    if (a.Advance? || a.Abandon?) && a.caller < |s.calls| {
      StepOwn(c, s, a);
    } else {
      StepOther(c, s, a);
    }
  }

  lemma StepRevokedBlocks(c: Config, s: State, a: Action, op: string)
    requires BudgetRevoked(s, op)
    ensures NoneReadSince(s, Step(c, s, a), op) && BudgetRevoked(Step(c, s, a), op)
  {
    var t := Step(c, s, a);
    StepGrows(c, s, a);
    StepPersists(c, s, a);
    forall q | 0 <= q < |t.calls| && ForOperation(t.calls[q], op) && PastRead(t.calls[q])
      ensures q < |s.calls| && PastRead(s.calls[q])
    {
      StepGrants(c, s, a, q);
    }
  }

  lemma StepWork(c: Config, s: State, a: Action)
    requires W.Inv(s.work)
    ensures W.Inv(Step(c, s, a).work) && W.Absorbs(s.work, Step(c, s, a).work)
  {
    if a.Work? {
      W.StepInv(s.work, c.table, a.action);
    } else if (a.Advance? || a.Abandon?) && a.caller < |s.calls| {
      StepOwn(c, s, a);
    } else {
      StepOther(c, s, a);
    }
  }

  lemma {:induction false} ExecFailsClosed(c: Config, s: State, actions: seq<Action>, op: string)
    requires W.Inv(s.work) && OperationEnded(s, op)
    ensures NoneAuthorizedSince(s, Exec(c, s, actions), op)
    decreases |actions|
  {
    if actions != [] {
      var mid := Step(c, s, actions[0]);
      StepWork(c, s, actions[0]);
      StepFailsClosed(c, s, actions[0], op);
      ExecFailsClosed(c, mid, actions[1..], op);
    }
  }

  lemma {:induction false} ExecWork(c: Config, s: State, actions: seq<Action>)
    requires W.Inv(s.work)
    ensures W.Inv(Exec(c, s, actions).work)
    decreases |actions|
  {
    if actions != [] {
      StepWork(c, s, actions[0]);
      ExecWork(c, Step(c, s, actions[0]), actions[1..]);
    }
  }

  /** Once an operation's terminal event is appended, no call for it is authorized any more, whatever
      happens to the revocation write: a call that is authorized later was authorized already then. */
  lemma FailsClosed(c: Config, before: seq<Action>, later: seq<Action>, op: string)
    requires OperationEnded(Exec(c, Init(), before), op)
    ensures var s := Exec(c, Init(), before);
      NoneAuthorizedSince(s, Exec(c, s, later), op)
  {
    ExecWork(c, Init(), before);
    ExecFailsClosed(c, Exec(c, Init(), before), later, op);
  }

  lemma {:induction false} ExecPersists(c: Config, s: State, actions: seq<Action>)
    ensures Persists(s, Exec(c, s, actions))
    decreases |actions|
  {
    if actions != [] {
      StepPersists(c, s, actions[0]);
      ExecPersists(c, Step(c, s, actions[0]), actions[1..]);
    }
  }

  lemma {:induction false} ExecRevokedBlocks(c: Config, s: State, actions: seq<Action>, op: string)
    requires BudgetRevoked(s, op)
    ensures NoneReadSince(s, Exec(c, s, actions), op) && BudgetRevoked(Exec(c, s, actions), op)
    decreases |actions|
  {
    if actions != [] {
      StepRevokedBlocks(c, s, actions[0], op);
      ExecRevokedBlocks(c, Step(c, s, actions[0]), actions[1..], op);
    }
  }

  /** A budget is never replaced, its limits never move, its usage never shrinks, and nothing undoes its
      revocation; from the revocation on no further call gets past its budget read. */
  lemma RevocationHolds(c: Config, before: seq<Action>, later: seq<Action>, op: string)
    ensures var s := Exec(c, Init(), before);
      var t := Exec(c, s, later);
      Persists(s, t) && (BudgetRevoked(s, op) ==> BudgetRevoked(t, op) && NoneReadSince(s, t, op))
  {
    var s := Exec(c, Init(), before);
    ExecPersists(c, s, later);
    if BudgetRevoked(s, op) {
      ExecRevokedBlocks(c, s, later, op);
    }
  }
}
