/** What becomes of the provider's answers: every one that reports usage is charged once, and every one
    that cannot be accounted for leads to a revocation. */
module RelayCharges {
  import opened Options
  import opened UsageLedger
  import opened RelayBudget
  import opened Relay
  import opened RelayAuthority
  import opened Sums
  import WS = WorkflowStore

  // ---- every answer is charged, once ----

  /** What the action reports for the operation: the charge of a readable answer to one of its calls. */
  function Reported(c: Config, s: State, a: Action, op: string, unit: Unit): int {
    if Answers(s, a, op) && Parse(a.reply.raw).1 then ChargeIn(c, Parse(a.reply.raw).0, unit) else 0
  }

  /** What a whole run reported. */
  function ReportedIn(c: Config, s: State, actions: seq<Action>, op: string, unit: Unit): int
    decreases |actions|
  {
    if actions == [] then 0
    else Reported(c, s, actions[0], op, unit) + ReportedIn(c, Step(c, s, actions[0]), actions[1..], op, unit)
  }

  /** Reported, not yet charged. */
  function AwaitingOf(c: Config, op: string, unit: Unit): Call -> int {
    (call: Call) => if ForOperation(call, op) && call.stage.Charging? then ChargeIn(c, call.stage.usage, unit) else 0
  }

  function Awaiting(c: Config, s: State, op: string, unit: Unit): int {
    Total(s.calls, AwaitingOf(c, op, unit))
  }

  /** What was charged and what will be: a step adds exactly what it reports. */
  lemma StepCharges(c: Config, s: State, a: Action, op: string, unit: Unit)
    requires Sound(s)
    ensures var t := Step(c, s, a);
      UsedAt(t, op, unit) + Awaiting(c, t, op, unit)
        == UsedAt(s, op, unit) + Awaiting(c, s, op, unit) + Reported(c, s, a, op, unit)
  {
    match a
    case Work(_) =>
    case Arrive(r) =>
      TotalAppend(s.calls, Call(r, if r.Issue? then IssueChecking else Verifying, false, None, None),
                  AwaitingOf(c, op, unit));
    case Abandon(p) => if p < |s.calls| { OwnCharges(c, s, a, op, unit); }
    case Advance(p, _, _, _, _, _) => if p < |s.calls| { OwnCharges(c, s, a, op, unit); }
    case Revoke(scope, operationID, now) => RevokedUsage(s, scope, operationID, now, op, unit);
  }

  lemma OwnCharges(c: Config, s: State, a: Action, op: string, unit: Unit)
    requires Sound(s) && (a.Advance? || a.Abandon?) && a.caller < |s.calls|
    ensures var t := Step(c, s, a);
      UsedAt(t, op, unit) + Awaiting(c, t, op, unit)
        == UsedAt(s, op, unit) + Awaiting(c, s, op, unit) + Reported(c, s, a, op, unit)
  {
    var t, p := Step(c, s, a), a.caller;
    StepReplaces(c, s, a);
    TotalUpdate(s.calls, p, t.calls[p], AwaitingOf(c, op, unit));
    assert Backed(s, s.calls[p]);
    if a.Advance? {
      match s.calls[p].request
      case Issue(_, _, _, _, _) => assert t == IssueStep(c, s, p, a.now, a.freshID);
      case Completion(claims) => CompletionCharges(c, s, p, claims, a, op, unit);
    }
  }

  lemma CompletionCharges(c: Config, s: State, p: nat, claims: Claims, a: Action, op: string, unit: Unit)
    requires Sound(s) && p < |s.calls| && s.calls[p].request == Completion(claims) && a.Advance? && a.caller == p
    ensures var t := Step(c, s, a);
      |t.calls| == |s.calls| &&
      UsedAt(t, op, unit) + AwaitingOf(c, op, unit)(t.calls[p])
        == UsedAt(s, op, unit) + AwaitingOf(c, op, unit)(s.calls[p]) + Reported(c, s, a, op, unit)
  {
    var t := Step(c, s, a);
    assert Backed(s, s.calls[p]);
    match s.calls[p].stage
    case Checking(b) => assert t == CheckStep(s, p, claims, b, a.now);
    case Asking => assert t == Move(s, p, Received(a.reply));
    case Charging(u) =>
      assert NamesBudget(s, claims);
      assert t == ChargeStep(c, s, p, claims, u);
    case Recording(u) => assert t == RecordStep(c, s, p, claims, u, a.recorded);
    case Denying => RevokedUsage(s, claims.scope, claims.operationID, a.now, op, unit);
    case Revoking => RevokedUsage(s, claims.scope, claims.operationID, a.now, op, unit);
    case _ =>
  }

  lemma {:induction false} ExecCharges(c: Config, s: State, actions: seq<Action>, op: string, unit: Unit)
    requires Sound(s)
    ensures var t := Exec(c, s, actions);
      UsedAt(t, op, unit) + Awaiting(c, t, op, unit)
        == UsedAt(s, op, unit) + Awaiting(c, s, op, unit) + ReportedIn(c, s, actions, op, unit)
    decreases |actions|
  {
    if actions != [] {
      StepSound(c, s, actions[0]);
      StepCharges(c, s, actions[0], op, unit);
      ExecCharges(c, Step(c, s, actions[0]), actions[1..], op, unit);
    }
  }

  /** In every run the usage of a budget is what the provider reported to the calls of its operation, each
      readable answer charged exactly once, less what is yet to be charged. */
  lemma ChargedOnce(c: Config, actions: seq<Action>, op: string, unit: Unit)
    ensures var s := Exec(c, Init(), actions);
      UsedAt(s, op, unit) == ReportedIn(c, Init(), actions, op, unit) - Awaiting(c, s, op, unit)
  {
    Reachable(c, []);
    assert Exec(c, Init(), []) == Init();
    ExecCharges(c, Init(), actions, op, unit);
  }

  /** A client that goes away ends its call, unless there is an answer or a finished operation to account for:
      what remains to be charged, recorded or revoked is. */
  lemma GoingAway(c: Config, s: State, p: nat)
    requires p < |s.calls|
    ensures var stage, t := s.calls[p].stage, Step(c, s, Abandon(p));
      if stage.Denying? || stage.Charging? || stage.Recording? || stage.Revoking? then t == s
      else t == s.(calls := t.calls) && |t.calls| == |s.calls| && t.calls[p].stage == Ended
  {
    if s.calls[p].stage == Ended {
      assert s.calls[p := s.calls[p]] == s.calls;
    }
  }

  // ---- what cannot be accounted for is revoked ----

  /** The action finds that the call's operation is known and finished, or gets an answer without readable
      usage, or fails to record a usage that was charged. */
  predicate Incurs(s: State, a: Action, q: nat) {
    && a.Advance? && a.caller == q && q < |s.calls| && s.calls[q].request.Completion?
    && var claims := s.calls[q].request.claims;
    match s.calls[q].stage
    case Checking(_) =>
      && claims.operationID in s.work.operations && s.work.operations[claims.operationID].scope == claims.scope
      && !Unfinished(s, claims.scope, claims.operationID)
    case Asking => a.reply == WithoutUsage || (a.reply.WithUsage? && !Parse(a.reply.raw).1)
    case Recording(_) => !a.recorded
    case _ => false
  }

  predicate Owes(s: State, q: nat) {
    && q < |s.calls| && s.calls[q].request.Completion? && s.calls[q].stage in {Denying, Revoking}
    && NamesBudget(s, s.calls[q].request.claims)
  }

  lemma IncursDebt(c: Config, s: State, a: Action, q: nat)
    requires Sound(s) && Incurs(s, a, q)
    ensures Owes(Step(c, s, a), q) && Step(c, s, a).calls[q].request == s.calls[q].request
  {
    var t, claims := Step(c, s, a), s.calls[q].request.claims;
    assert Backed(s, s.calls[q]);
    assert NamesBudget(s, claims);
    match s.calls[q].stage
    case Checking(b) => assert t == CheckStep(s, q, claims, b, a.now);
    case Asking => assert t == Move(s, q, Received(a.reply));
    case Recording(u) => assert t == RecordStep(c, s, q, claims, u, a.recorded);
  }

  /** Nothing but its own next step takes the debt from a call: not its client going away, either. */
  lemma {:induction false} StillOwes(c: Config, s: State, actions: seq<Action>, q: nat)
    requires Owes(s, q) && forall k :: 0 <= k < |actions| ==> !(actions[k].Advance? && actions[k].caller == q)
    ensures Owes(Exec(c, s, actions), q) && Exec(c, s, actions).calls[q].request == s.calls[q].request
    decreases |actions|
  {
    if actions != [] {
      var a := actions[0];
      StepPersists(c, s, a);
      if (a.Advance? || a.Abandon?) && a.caller < |s.calls| {
        StepReplaces(c, s, a);
      } else {
        StepOther(c, s, a);
      }
      assert forall k :: 0 <= k < |actions[1..]| ==> actions[1..][k] == actions[k + 1];
      StillOwes(c, Step(c, s, a), actions[1..], q);
    }
  }

  lemma PaysDebt(c: Config, s: State, a: Action, q: nat)
    requires Owes(s, q) && a.Advance? && a.caller == q
    ensures var t, op := Step(c, s, a), s.calls[q].request.claims.operationID;
      && op in t.budgets && t.budgets[op].revokedAt == (if a.revoked then Some(a.now) else s.budgets[op].revokedAt)
      && |t.calls| == |s.calls| && t.calls[q].stage == Ended
  {
  }

  /** In every run: after an answer that cannot be accounted for, or a call for a finished operation, the next
      step of that call revokes the operation's budget, whatever happens in between, unless that write is
      lost. */
  lemma DebtPaid(c: Config, before: seq<Action>, a: Action, between: seq<Action>, pay: Action, q: nat)
    requires Incurs(Exec(c, Init(), before), a, q) && pay.Advance? && pay.caller == q && pay.revoked
    requires forall k :: 0 <= k < |between| ==> !(between[k].Advance? && between[k].caller == q)
    ensures var s := Exec(c, Init(), before);
      var t := Step(c, Exec(c, Step(c, s, a), between), pay);
      var op := s.calls[q].request.claims.operationID;
      op in t.budgets && t.budgets[op].revokedAt == Some(pay.now)
  {
    var s := Exec(c, Init(), before);
    Reachable(c, before);
    IncursDebt(c, s, a, q);
    StillOwes(c, Step(c, s, a), between, q);
    PaysDebt(c, Exec(c, Step(c, s, a), between), pay, q);
  }

  // ---- and nothing else is ----

  /** The call incurred a debt, and has not taken a step since. */
  predicate Owing(c: Config, actions: seq<Action>, q: nat) {
    actions != [] &&
    var front, last := actions[..|actions| - 1], actions[|actions| - 1];
    Incurs(Exec(c, Init(), front), last, q) || (Owing(c, front, q) && !(last.Advance? && last.caller == q))
  }

  /** In every run a call is about to revoke exactly as long as it owes that. */
  lemma {:induction false} OwesIff(c: Config, actions: seq<Action>, q: nat)
    ensures Owes(Exec(c, Init(), actions), q) <==> Owing(c, actions, q)
    decreases |actions|
  {
    if actions != [] {
      var front, last := actions[..|actions| - 1], actions[|actions| - 1];
      var s := Exec(c, Init(), front);
      ExecSnoc(c, Init(), actions);
      Reachable(c, front);
      OwesIff(c, front, q);
      if Incurs(s, last, q) {
        IncursDebt(c, s, last, q);
      } else if Owes(s, q) {
        if last.Advance? && last.caller == q { PaysDebt(c, s, last, q); } else { StillOwesNext(c, s, last, q); }
      } else {
        NoNewDebt(c, s, last, q);
      }
    }
  }

  lemma StillOwesNext(c: Config, s: State, a: Action, q: nat)
    requires Owes(s, q) && !(a.Advance? && a.caller == q)
    ensures Owes(Step(c, s, a), q)
  {
    StillOwes(c, s, [a], q);
    assert [a][1..] == [];
  }

  lemma NoNewDebt(c: Config, s: State, a: Action, q: nat)
    requires Sound(s) && !Incurs(s, a, q) && !Owes(s, q)
    ensures !Owes(Step(c, s, a), q)
  {
    var t := Step(c, s, a);
    if q < |s.calls| {
      assert Backed(s, s.calls[q]);
      if (a.Advance? || a.Abandon?) && a.caller < |s.calls| {
        StepReplaces(c, s, a);
        if a.Advance? && a.caller == q && s.calls[q].request.Completion? {
          OwnNoDebt(c, s, q, s.calls[q].request.claims, a);
        }
      } else {
        StepOther(c, s, a);
      }
    } else if (a.Advance? || a.Abandon?) && a.caller < |s.calls| {
      StepReplaces(c, s, a);
    }
  }

  lemma OwnNoDebt(c: Config, s: State, q: nat, claims: Claims, a: Action)
    requires Sound(s) && q < |s.calls| && s.calls[q].request == Completion(claims) && a.Advance? && a.caller == q
    requires !Incurs(s, a, q) && s.calls[q].stage !in {Denying, Revoking}
    ensures |Step(c, s, a).calls| == |s.calls| && Step(c, s, a).calls[q].stage !in {Denying, Revoking}
  {
    var t := Step(c, s, a);
    assert Backed(s, s.calls[q]);
    match s.calls[q].stage
    case Checking(b) => assert t == CheckStep(s, q, claims, b, a.now);
    case Asking => assert t == Move(s, q, Received(a.reply));
    case Charging(u) =>
      assert NamesBudget(s, claims);
      assert t == ChargeStep(c, s, q, claims, u);
    case Recording(u) =>
      assert claims in s.tokens;
      assert t == RecordStep(c, s, q, claims, u, a.recorded);
    case _ =>
  }

  /** The last action revokes the operation's budget: the workflow's revocation of a budget that is there, or a
      step of a call that owes it. */
  predicate RevokesFor(c: Config, front: seq<Action>, last: Action, op: string) {
    var s := Exec(c, Init(), front);
    || (last.Revoke? && last.operationID == op && op in s.budgets && s.budgets[op].scope == last.scope)
    || (last.Advance? && last.revoked && Owing(c, front, last.caller)
        && last.caller < |s.calls| && ForOperation(s.calls[last.caller], op))
  }

  predicate EverRevokedFor(c: Config, actions: seq<Action>, op: string) {
    actions != [] &&
    var front, last := actions[..|actions| - 1], actions[|actions| - 1];
    EverRevokedFor(c, front, op) || RevokesFor(c, front, last, op)
  }

  /** In every run a budget is revoked exactly if the workflow revoked it, or a call that owed its revocation
      stored it: an answer without usage that the relay does not account for costs nobody a budget. */
  lemma {:induction false} RevokedIff(c: Config, actions: seq<Action>, op: string)
    ensures BudgetRevoked(Exec(c, Init(), actions), op) <==> EverRevokedFor(c, actions, op)
    decreases |actions|
  {
    if actions != [] {
      var front, last := actions[..|actions| - 1], actions[|actions| - 1];
      var s := Exec(c, Init(), front);
      ExecSnoc(c, Init(), actions);
      RevokedIff(c, front, op);
      Reachable(c, front);
      StepRevokes(c, s, last, op);
      if last.Advance? && last.caller < |s.calls| {
        OwesIff(c, front, last.caller);
        assert Backed(s, s.calls[last.caller]);
      }
    }
  }
}
