/** When a token authorizes a call, what issuing one stores, and what a call must do that could not be
    accounted for. */
module RelayAuthority {
  import opened Options
  import opened UsageLedger
  import opened RelayBudget
  import opened Relay
  import opened Sums
  import W = Workflow
  import WS = WorkflowStore

  // ---- tokens and the budgets they name ----

  /** The claims name the budget that is stored for their operation. */
  predicate NamesBudget(s: State, claims: Claims) {
    && claims.operationID in s.budgets
    && s.budgets[claims.operationID].id == claims.budgetID && s.budgets[claims.operationID].scope == claims.scope
  }

  /** A call past its verification shows an issued token; one that read its budget read the stored one. */
  ghost predicate Backed(s: State, call: Call) {
    && (call.request.Issue? && call.stage.IssueCreating? ==>
          call.request.scope != "" && call.request.operationID != "")
    && (call.request.Completion? ==>
          && (call.authorized || !(call.stage.Verifying? || call.stage.Ended?) ==> call.request.claims in s.tokens)
          && (call.stage.Asking? || call.stage.Charging? || call.stage.Recording? || call.stage.Revoking? ==>
                call.authorized)
          && (call.stage.Verifying? || call.stage.Fetching? || call.stage.Checking? || call.stage.Denying? ==>
                !call.authorized)
          && (call.stage.Checking? ==>
                && NamesBudget(s, call.request.claims)
                && Continues(call.stage.budget, s.budgets[call.request.claims.operationID])
                && call.stage.budget.revokedAt == None))
  }

  ghost predicate Sound(s: State) {
    && (forall claims :: claims in s.tokens ==> NamesBudget(s, claims) && claims.scope != "")
    && (forall one, other :: one in s.tokens && other in s.tokens && one.operationID == other.operationID ==>
          one == other)
    && (forall p :: 0 <= p < |s.calls| ==> Backed(s, s.calls[p]))
  }

  lemma StillBacked(s: State, t: State, call: Call)
    requires Backed(s, call) && Persists(s, t) && s.tokens <= t.tokens
    ensures Backed(t, call)
  {
  }

  lemma IssueTokens(c: Config, s: State, p: nat, now: int, freshID: string)
    requires Sound(s) && p < |s.calls| && s.calls[p].request.Issue?
    ensures var t := IssueStep(c, s, p, now, freshID);
      && TokensGrow(s, t) && |t.calls| == |s.calls| && Backed(t, t.calls[p])
  {
    assert Backed(s, s.calls[p]);
  }

  /** Tokens are added only for operations that had none. */
  ghost predicate TokensGrow(s: State, t: State) {
    && s.tokens <= t.tokens
    && (forall claims :: claims in t.tokens && claims !in s.tokens ==>
          NamesBudget(t, claims) && claims.scope != "" && claims.operationID !in s.budgets)
    && (forall one, other :: one in t.tokens && other in t.tokens && one !in s.tokens && other !in s.tokens ==>
          one == other)
  }

  lemma CompletionBacked(
    c: Config, s: State, p: nat, claims: Claims, now: int, reply: Reply, recorded: bool, revoked: bool)
    requires Sound(s) && p < |s.calls| && s.calls[p].request == Completion(claims)
    ensures var t := CompletionStep(c, s, p, claims, now, reply, recorded, revoked);
      t.tokens == s.tokens && |t.calls| == |s.calls| && Backed(t, t.calls[p])
  {
    var t := CompletionStep(c, s, p, claims, now, reply, recorded, revoked);
    assert Backed(s, s.calls[p]);
    match s.calls[p].stage
    case Checking(b) => assert t == CheckStep(s, p, claims, b, now);
    case Charging(u) => assert t == ChargeStep(c, s, p, claims, u);
    case Recording(u) => assert t == RecordStep(c, s, p, claims, u, recorded);
    case Asking => assert t == Move(s, p, Received(reply));
    case _ =>
  }

  lemma StepTokens(c: Config, s: State, a: Action)
    requires Sound(s)
    ensures var t := Step(c, s, a);
      && TokensGrow(s, t)
      && (a.Advance? && a.caller < |s.calls| ==> |t.calls| == |s.calls| && Backed(t, t.calls[a.caller]))
  {
    if a.Advance? && a.caller < |s.calls| {
      StepReplaces(c, s, a);
      match s.calls[a.caller].request
      case Issue(_, _, _, _, _) => IssueTokens(c, s, a.caller, a.now, a.freshID);
      case Completion(claims) =>
        CompletionBacked(c, s, a.caller, claims, a.now, a.reply, a.recorded, a.revoked);
    }
  }

  lemma StepSound(c: Config, s: State, a: Action)
    requires Sound(s)
    ensures Sound(Step(c, s, a))
  {
    var t := Step(c, s, a);
    StepTokens(c, s, a);
    StepPersists(c, s, a);
    if (a.Advance? || a.Abandon?) && a.caller < |s.calls| { StepReplaces(c, s, a); }
    forall p | 0 <= p < |t.calls| ensures Backed(t, t.calls[p]) {
      if p < |s.calls| && t.calls[p] == s.calls[p] {
        StillBacked(s, t, s.calls[p]);
      } else if a.Abandon? {
        assert Backed(s, s.calls[p]);
      }
    }
  }

  lemma {:induction false} ExecSound(c: Config, s: State, actions: seq<Action>)
    requires Sound(s)
    ensures Sound(Exec(c, s, actions))
    decreases |actions|
  {
    if actions != [] {
      StepSound(c, s, actions[0]);
      ExecSound(c, Step(c, s, actions[0]), actions[1..]);
    }
  }

  lemma Reachable(c: Config, actions: seq<Action>)
    ensures Sound(Exec(c, Init(), actions))
  {
    ExecSound(c, Init(), actions);
  }

  lemma ExecSnoc(c: Config, s: State, actions: seq<Action>)
    requires actions != []
    ensures Exec(c, s, actions) == Step(c, Exec(c, s, actions[..|actions| - 1]), actions[|actions| - 1])
    decreases |actions|
  {
    var front, last := actions[..|actions| - 1], actions[|actions| - 1];
    if front == [] {
      assert actions[1..] == [];
    } else {
      var mid := Step(c, s, actions[0]);
      assert front[1..] == actions[1..][..|actions| - 2];
      ExecSnoc(c, mid, actions[1..]);
    }
  }

  // ---- the step that authorizes ----

  /** The operation is in the scope and has neither succeeded nor failed. */
  predicate Unfinished(s: State, scope: string, operationID: string) {
    && operationID in s.work.operations && s.work.operations[operationID].scope == scope
    && s.work.operations[operationID].status != WS.Succeeded && s.work.operations[operationID].status != WS.Failed
  }

  /** The action checks this call for the last time before the provider is asked. */
  predicate Checks(s: State, a: Action, q: nat) {
    && a.Advance? && a.caller == q && q < |s.calls|
    && s.calls[q].request.Completion? && s.calls[q].stage.Checking?
  }

  /** What the check asks for: an unfinished operation, a time before the deadline of the stored budget that
      the token names, and room under its ceilings as the budget was read. */
  predicate MayCall(s: State, claims: Claims, read: Budget, now: int) {
    && Unfinished(s, claims.scope, claims.operationID)
    && NamesBudget(s, claims)
    && var b := s.budgets[claims.operationID];
    && now < b.deadline
    && read.usedTokens < b.maxTokens && read.usedMicros < b.maxMicros
  }

  ghost predicate Turns(old_: Call, new_: Call) {
    new_.authorized && !old_.authorized
  }

  /** A step authorizes a call exactly if it checks it and all of that holds. A call for an operation that is
      known and finished is to revoke its budget instead; any other is over. */
  lemma CheckDecides(c: Config, s: State, a: Action, q: nat)
    requires Sound(s) && q < |s.calls| && s.calls[q].request.Completion?
    ensures q < |Step(c, s, a).calls|
    ensures var old_, new_, claims := s.calls[q], Step(c, s, a).calls[q], s.calls[q].request.claims;
      && (Turns(old_, new_) <==> Checks(s, a, q) && MayCall(s, claims, old_.stage.budget, a.now))
      && (Checks(s, a, q) && !Turns(old_, new_) ==>
            if claims.operationID in s.work.operations && s.work.operations[claims.operationID].scope == claims.scope
               && !Unfinished(s, claims.scope, claims.operationID)
            then new_.stage == Denying else new_.stage == Ended)
  {
    var call := s.calls[q];
    assert Backed(s, call);
    if (a.Advance? || a.Abandon?) && a.caller < |s.calls| {
      StepReplaces(c, s, a);
      if a.Advance? && a.caller == q {
        CompletionDecides(c, s, q, call.request.claims, a);
      }
    } else {
      StepOther(c, s, a);
    }
  }

  lemma CompletionDecides(c: Config, s: State, p: nat, claims: Claims, a: Action)
    requires Sound(s) && p < |s.calls| && s.calls[p].request == Completion(claims) && a.Advance? && a.caller == p
    ensures |Step(c, s, a).calls| == |s.calls|
    ensures var old_, new_ := s.calls[p], Step(c, s, a).calls[p];
      if old_.stage.Checking? then
        if MayCall(s, claims, old_.stage.budget, a.now) then new_ == old_.(stage := Asking, authorized := true)
        else new_ == old_.(stage :=
          if claims.operationID in s.work.operations && s.work.operations[claims.operationID].scope == claims.scope
             && !Unfinished(s, claims.scope, claims.operationID) then Denying else Ended)
      else !Turns(old_, new_)
  {
    var t, call := Step(c, s, a), s.calls[p];
    assert Backed(s, call);
    match call.stage
    case Checking(b) => assert t == CheckStep(s, p, claims, b, a.now);
    case Charging(u) => assert t == ChargeStep(c, s, p, claims, u);
    case Recording(u) => assert t == RecordStep(c, s, p, claims, u, a.recorded);
    case _ =>
  }

  // ---- issuing ----

  /** The action checks a request for a token: it names an unfinished operation. */
  ghost predicate Allows(s: State, a: Action, r: Request) {
    && a.Advance? && a.caller < |s.calls| && s.calls[a.caller].request == r
    && r.Issue? && s.calls[a.caller].stage.IssueChecking?
    && r.operationID != "" && r.scope != "" && Unfinished(s, r.scope, r.operationID)
  }

  /** The action creates a budget, the first of its operation: with the limits asked for, or the server's where
      none above zero is given, a deadline ahead, as given or the wall clock's, and nothing used. */
  ghost predicate Creates(c: Config, s: State, a: Action, r: Request, b: Budget) {
    && a.Advance? && a.caller < |s.calls| && s.calls[a.caller].request == r
    && r.Issue? && s.calls[a.caller].stage.IssueCreating?
    && r.operationID !in s.budgets
    && b.id == a.freshID && b.operationID == r.operationID && b.scope == r.scope
    && b.maxTokens == (if r.maxTokens > 0 then r.maxTokens else c.defaultTokens)
    && b.maxMicros == (if r.maxMicros > 0 then r.maxMicros else c.defaultMicros)
    && b.deadline == (if r.deadline != 0 then r.deadline else a.now + c.wallClock) && b.deadline > a.now
    && b.usedTokens == 0 && b.usedMicros == 0 && b.revokedAt == None
  }

  /** A request for a token goes on exactly for an unfinished operation, and creates a budget and its token
      exactly if the operation has none and the deadline is ahead; it is over then. */
  lemma IssueDecides(c: Config, s: State, p: nat, a: Action)
    requires p < |s.calls| && s.calls[p].request.Issue? && a.Advance? && a.caller == p
    ensures |Step(c, s, a).calls| == |s.calls|
    ensures s.calls[p].stage.IssueChecking? ==>
      Step(c, s, a) == Move(s, p, if Allows(s, a, s.calls[p].request) then IssueCreating else Ended)
    ensures s.calls[p].stage.IssueCreating? ==>
      var t, r := Step(c, s, a), s.calls[p].request;
      var due := if r.deadline != 0 then r.deadline else a.now + c.wallClock;
      && t.calls[p].stage == Ended
      && if r.operationID !in s.budgets && a.now < due then
           && r.operationID in t.budgets && Creates(c, s, a, r, t.budgets[r.operationID])
           && t.budgets == s.budgets[r.operationID := t.budgets[r.operationID]]
           && t.tokens == s.tokens + {Claims(a.freshID, r.operationID, r.scope, a.now + c.tokenTTL)}
         else t.budgets == s.budgets && t.tokens == s.tokens
  {
  }

  /** These are the operation's only claims with a token. */
  ghost predicate OnlyToken(tokens: set<Claims>, op: string, only: Claims) {
    forall claims :: claims in tokens && claims.operationID == op <==> claims == only
  }

  /** In the run, action j checked this request for a token and action k created this budget for it. */
  ghost predicate IssuedAt(c: Config, actions: seq<Action>, j: nat, k: nat, r: Request, b: Budget) {
    && j < k < |actions|
    && Allows(Exec(c, Init(), actions[..j]), actions[j], r)
    && Creates(c, Exec(c, Init(), actions[..k]), actions[k], r, b)
  }

  /** In every run each stored budget was created so, once, and has one token since. */
  lemma {:induction false} IssuedOnce(c: Config, actions: seq<Action>, op: string)
    returns (j: nat, k: nat, r: Request, b: Budget)
    requires op in Exec(c, Init(), actions).budgets
    ensures IssuedAt(c, actions, j, k, r, b) && b.operationID == op
    ensures var t := Exec(c, Init(), actions);
      && Continues(b, t.budgets[op])
      && OnlyToken(t.tokens, op, Claims(b.id, op, b.scope, actions[k].now + c.tokenTTL))
    decreases |actions|
  {
    var front, last := actions[..|actions| - 1], actions[|actions| - 1];
    var s := Exec(c, Init(), front);
    ExecSnoc(c, Init(), actions);
    Reachable(c, front);
    if op in s.budgets {
      j, k, r, b := IssuedOnce(c, front, op);
      assert front[..j] == actions[..j] && front[..k] == actions[..k];
      StepPersists(c, s, last);
      StepTokens(c, s, last);
      KeepsToken(s, Step(c, s, last), op, Claims(b.id, op, b.scope, actions[k].now + c.tokenTTL));
    } else {
      CreatedBy(c, s, last, op);
      k, r, b := |front|, s.calls[last.caller].request, Step(c, s, last).budgets[op];
      assert actions[..k] == front;
      j := AllowedBefore(c, front, last.caller);
      assert front[..j] == actions[..j];
      FirstToken(c, s, last);
    }
  }

  lemma KeepsToken(s: State, t: State, op: string, only: Claims)
    requires TokensGrow(s, t) && op in s.budgets && OnlyToken(s.tokens, op, only)
    ensures OnlyToken(t.tokens, op, only)
  {
  }

  lemma FirstToken(c: Config, s: State, a: Action)
    requires Sound(s) && a.Advance? && a.caller < |s.calls| && s.calls[a.caller].request.Issue?
    requires s.calls[a.caller].stage.IssueCreating?
    requires var op := s.calls[a.caller].request.operationID; op !in s.budgets && op in Step(c, s, a).budgets
    ensures var t, r := Step(c, s, a), s.calls[a.caller].request;
      && Creates(c, s, a, r, t.budgets[r.operationID])
      && OnlyToken(t.tokens, r.operationID, Claims(a.freshID, r.operationID, r.scope, a.now + c.tokenTTL))
  {
    IssueDecides(c, s, a.caller, a);
    assert forall claims :: claims in s.tokens ==> NamesBudget(s, claims);
  }

  /** Only the creation of a request for a token adds a budget. */
  lemma CreatedBy(c: Config, s: State, a: Action, op: string)
    requires op !in s.budgets && op in Step(c, s, a).budgets
    ensures a.Advance? && a.caller < |s.calls| && s.calls[a.caller].request.Issue?
    ensures s.calls[a.caller].stage.IssueCreating? && s.calls[a.caller].request.operationID == op
  {
    if (a.Advance? || a.Abandon?) && a.caller < |s.calls| && s.calls[a.caller].request.Completion? {
      KeysStay(c, s, a);
    }
  }

  lemma KeysStay(c: Config, s: State, a: Action)
    requires (a.Advance? || a.Abandon?) && a.caller < |s.calls| && s.calls[a.caller].request.Completion?
    ensures Step(c, s, a).budgets.Keys == s.budgets.Keys
  {
    if a.Advance? {
      var t, p, claims := Step(c, s, a), a.caller, s.calls[a.caller].request.claims;
      match s.calls[p].stage
      case Checking(b) => assert t == CheckStep(s, p, claims, b, a.now);
      case Charging(u) => assert t == ChargeStep(c, s, p, claims, u);
      case Recording(u) => assert t == RecordStep(c, s, p, claims, u, a.recorded);
      case _ =>
    }
  }

  lemma {:induction false} AllowedBefore(c: Config, actions: seq<Action>, p: nat) returns (j: nat)
    requires var s := Exec(c, Init(), actions);
      p < |s.calls| && s.calls[p].request.Issue? && s.calls[p].stage.IssueCreating?
    ensures j < |actions|
    ensures Allows(Exec(c, Init(), actions[..j]), actions[j], Exec(c, Init(), actions).calls[p].request)
    decreases |actions|
  {
    var front, last := actions[..|actions| - 1], actions[|actions| - 1];
    var s := Exec(c, Init(), front);
    ExecSnoc(c, Init(), actions);
    StepGrows(c, s, last);
    if p < |s.calls| && s.calls[p].stage.IssueCreating? {
      j := AllowedBefore(c, front, p);
      assert front[..j] == actions[..j];
    } else {
      j := |front|;
      assert actions[..j] == front;
      AllowedNow(c, s, p, last);
    }
  }

  lemma AllowedNow(c: Config, s: State, p: nat, a: Action)
    requires p >= |s.calls| || !s.calls[p].stage.IssueCreating?
    requires p < |Step(c, s, a).calls| && Step(c, s, a).calls[p].request.Issue?
    requires Step(c, s, a).calls[p].stage.IssueCreating?
    ensures Allows(s, a, Step(c, s, a).calls[p].request)
  {
    if (a.Advance? || a.Abandon?) && a.caller < |s.calls| {
      StepReplaces(c, s, a);
      if a.Advance? && s.calls[a.caller].request.Issue? { IssueDecides(c, s, a.caller, a); }
    } else {
      StepOther(c, s, a);
    }
  }

  // ---- the way to an authorization, over a whole run ----

  /** The action verifies the token: it was issued, and has not expired. */
  predicate Verifies(s: State, a: Action, q: nat) {
    && a.Advance? && a.caller == q && q < |s.calls| && s.calls[q].request.Completion? && s.calls[q].stage.Verifying?
    && s.calls[q].request.claims in s.tokens && a.now < s.calls[q].request.claims.expiresAt
  }

  /** The action reads the stored budget that the token names, and it is not revoked. */
  predicate ReadsBudget(s: State, a: Action, q: nat) {
    && a.Advance? && a.caller == q && q < |s.calls| && s.calls[q].request.Completion? && s.calls[q].stage.Fetching?
    && NamesBudget(s, s.calls[q].request.claims)
    && s.budgets[s.calls[q].request.claims.operationID].revokedAt == None
  }

  predicate Authorizes(s: State, a: Action, q: nat) {
    && Checks(s, a, q) && MayCall(s, s.calls[q].request.claims, s.calls[q].stage.budget, a.now)
  }

  /** A token leads past verification only before it expires, and past the read only with its own budget. */
  lemma FirstDecides(c: Config, s: State, a: Action, q: nat)
    requires q < |s.calls| && s.calls[q].request.Completion? && a.Advance? && a.caller == q
    ensures q < |Step(c, s, a).calls|
    ensures var old_, new_ := s.calls[q], Step(c, s, a).calls[q];
      && (old_.stage.Verifying? ==> new_ == old_.(stage := if Verifies(s, a, q) then Fetching else Ended))
      && (old_.stage.Fetching? ==> new_ == old_.(stage :=
            if ReadsBudget(s, a, q) then Checking(s.budgets[old_.request.claims.operationID]) else Ended))
  {
  }

  /** How far a call has come, by what the run did for it. */
  datatype Way = Way(verified: bool, read: bool, granted: bool)

  function WayOf(c: Config, actions: seq<Action>, q: nat): Way {
    if actions == [] then Way(false, false, false) else
    var front, last := actions[..|actions| - 1], actions[|actions| - 1];
    var s, way := Exec(c, Init(), front), WayOf(c, front, q);
    Way(way.verified || Verifies(s, last, q), way.read || (way.verified && ReadsBudget(s, last, q)),
        way.granted || (way.read && Authorizes(s, last, q)))
  }

  ghost predicate Earned(call: Call, way: Way) {
    call.request.Completion? ==>
      && (call.stage.Fetching? ==> way.verified)
      && (call.stage.Checking? ==> way.read)
      && (call.authorized <==> way.granted)
      && (call.stage.Verifying? || call.stage.Fetching? || call.stage.Checking? ==> !way.granted)
  }

  /** In every run, a call is authorized exactly if three of its steps came in this order: one that verified
      its token, issued by then and unexpired; one that read the unrevoked budget the token names; and one at
      which the operation was unfinished, the deadline of the stored budget ahead, and room left as read. */
  lemma {:induction false} AuthorizedIff(c: Config, actions: seq<Action>, q: nat)
    requires q < |Exec(c, Init(), actions).calls|
    ensures Earned(Exec(c, Init(), actions).calls[q], WayOf(c, actions, q))
    decreases |actions|
  {
    if actions != [] {
      var front, last := actions[..|actions| - 1], actions[|actions| - 1];
      var s := Exec(c, Init(), front);
      ExecSnoc(c, Init(), actions);
      Reachable(c, front);
      if q < |s.calls| {
        AuthorizedIff(c, front, q);
        EarnedNext(c, s, last, q, WayOf(c, front, q), WayOf(c, actions, q));
      } else {
        NoWayYet(c, front, q);
      }
    }
  }

  /** Nothing was done for a call that has not arrived. */
  lemma {:induction false} NoWayYet(c: Config, actions: seq<Action>, q: nat)
    requires q >= |Exec(c, Init(), actions).calls|
    ensures WayOf(c, actions, q) == Way(false, false, false)
    decreases |actions|
  {
    if actions != [] {
      ExecSnoc(c, Init(), actions);
      StepGrows(c, Exec(c, Init(), actions[..|actions| - 1]), actions[|actions| - 1]);
      NoWayYet(c, actions[..|actions| - 1], q);
    }
  }

  lemma EarnedNext(c: Config, s: State, a: Action, q: nat, way: Way, next: Way)
    requires Sound(s) && q < |s.calls| && Earned(s.calls[q], way)
    requires next.verified == (way.verified || Verifies(s, a, q))
    requires next.read == (way.read || (way.verified && ReadsBudget(s, a, q)))
    requires next.granted == (way.granted || (way.read && Authorizes(s, a, q)))
    ensures q < |Step(c, s, a).calls| && Earned(Step(c, s, a).calls[q], next)
  {
    var call := s.calls[q];
    StepGrows(c, s, a);
    assert Backed(s, call);
    if call.request.Completion? {
      if a.Advance? && a.caller == q {
        FirstDecides(c, s, a, q);
        CompletionDecides(c, s, q, call.request.claims, a);
        if !(call.stage.Verifying? || call.stage.Fetching? || call.stage.Checking?) {
          LaterStages(c, s, q, call.request.claims, a);
        }
      } else if (a.Advance? || a.Abandon?) && a.caller < |s.calls| {
        StepReplaces(c, s, a);
      } else {
        StepOther(c, s, a);
      }
    }
  }

  /** After the check a call never comes back to it. */
  lemma LaterStages(c: Config, s: State, p: nat, claims: Claims, a: Action)
    requires p < |s.calls| && s.calls[p].request == Completion(claims) && a.Advance? && a.caller == p
    requires !(s.calls[p].stage.Verifying? || s.calls[p].stage.Fetching? || s.calls[p].stage.Checking?)
    ensures |Step(c, s, a).calls| == |s.calls| && Step(c, s, a).calls[p].authorized == s.calls[p].authorized
    ensures var stage := Step(c, s, a).calls[p].stage;
      !(stage.Verifying? || stage.Fetching? || stage.Checking?)
  {
    var t := Step(c, s, a);
    match s.calls[p].stage
    case Charging(u) => assert t == ChargeStep(c, s, p, claims, u);
    case Recording(u) => assert t == RecordStep(c, s, p, claims, u, a.recorded);
    case Asking => assert t == Move(s, p, Received(a.reply));
    case _ =>
  }

  /** No action from a time on advances calls before that time. */
  predicate NotBefore(actions: seq<Action>, deadline: int) {
    forall k :: 0 <= k < |actions| && actions[k].Advance? ==> actions[k].now >= deadline
  }

  /** Once a budget's deadline has passed, no call for its operation is authorized any more. */
  lemma NoneAfterDeadline(c: Config, before: seq<Action>, later: seq<Action>, op: string)
    requires op in Exec(c, Init(), before).budgets
    requires NotBefore(later, Exec(c, Init(), before).budgets[op].deadline)
    ensures NoneAuthorizedSince(Exec(c, Init(), before), Exec(c, Exec(c, Init(), before), later), op)
  {
    Reachable(c, before);
    ExecDeadline(c, Exec(c, Init(), before), later, op);
  }

  lemma {:induction false} ExecDeadline(c: Config, s: State, actions: seq<Action>, op: string)
    requires Sound(s) && op in s.budgets && NotBefore(actions, s.budgets[op].deadline)
    ensures NoneAuthorizedSince(s, Exec(c, s, actions), op)
    decreases |actions|
  {
    if actions != [] {
      var a, mid := actions[0], Step(c, s, actions[0]);
      StepSound(c, s, a);
      StepPersists(c, s, a);
      StepGrows(c, s, a);
      assert forall k :: 0 <= k < |actions[1..]| ==> actions[1..][k] == actions[k + 1];
      StepDeadline(c, s, a, op);
      ExecDeadline(c, mid, actions[1..], op);
    }
  }

  lemma StepDeadline(c: Config, s: State, a: Action, op: string)
    requires Sound(s) && op in s.budgets && (a.Advance? ==> a.now >= s.budgets[op].deadline)
    ensures NoneAuthorizedSince(s, Step(c, s, a), op)
  {
    var t := Step(c, s, a);
    StepGrows(c, s, a);
    forall q | 0 <= q < |t.calls| && ForOperation(t.calls[q], op) && t.calls[q].authorized
      ensures q < |s.calls| && s.calls[q].authorized
    {
      StepGrants(c, s, a, q);
      if q < |s.calls| {
        CheckDecides(c, s, a, q);
      }
    }
  }

  /** Nor one whose token has expired before it was verified. */
  lemma NoneAfterExpiry(c: Config, before: seq<Action>, later: seq<Action>, q: nat)
    requires var s := Exec(c, Init(), before);
      q < |s.calls| && s.calls[q].request.Completion? && s.calls[q].stage.Verifying?
      && NotBefore(later, s.calls[q].request.claims.expiresAt)
    ensures var t := Exec(c, Exec(c, Init(), before), later);
      q < |t.calls| && !t.calls[q].authorized && (t.calls[q].stage.Verifying? || t.calls[q].stage.Ended?)
  {
    Reachable(c, before);
    assert Backed(Exec(c, Init(), before), Exec(c, Init(), before).calls[q]);
    ExecExpiry(c, Exec(c, Init(), before), later, q);
  }

  lemma {:induction false} ExecExpiry(c: Config, s: State, actions: seq<Action>, q: nat)
    requires q < |s.calls| && s.calls[q].request.Completion? && (s.calls[q].stage.Verifying? || s.calls[q].stage.Ended?)
    requires !s.calls[q].authorized && NotBefore(actions, s.calls[q].request.claims.expiresAt)
    ensures var t := Exec(c, s, actions);
      q < |t.calls| && !t.calls[q].authorized && (t.calls[q].stage.Verifying? || t.calls[q].stage.Ended?)
    decreases |actions|
  {
    if actions != [] {
      var a := actions[0];
      StepGrows(c, s, a);
      if a.Advance? && a.caller == q {
        FirstDecides(c, s, a, q);
      } else if (a.Advance? || a.Abandon?) && a.caller < |s.calls| {
        StepReplaces(c, s, a);
      } else {
        StepOther(c, s, a);
      }
      assert forall k :: 0 <= k < |actions[1..]| ==> actions[1..][k] == actions[k + 1];
      ExecExpiry(c, Step(c, s, a), actions[1..], q);
    }
  }
}
