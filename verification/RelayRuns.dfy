/** Runs that show where the theorems of Relay end: the overshoot bound is met exactly, and a lost
    revocation leaves budget and ledger in disagreement. */
module RelayRuns {
  import opened Options
  import opened UsageLedger
  import opened RelayBudget
  import opened Relay
  import opened Sums
  import W = Workflow
  import WS = WorkflowStore

  /** The provider answers every call with the same body, which reports the usage `Of(raw)`. */
  function Of(raw: RawUsage): Usage {
    Parse(raw).0
  }

  function Price(c: Config, raw: RawUsage): Charge {
    ChargeFor(c.rate, Of(raw))
  }

  /** At most k calls in flight, each charging what the body costs. */
  function Each(c: Config, k: nat, raw: RawUsage): Limits {
    Limits(k, Price(c, raw).tokens, Price(c, raw).micros)
  }

  /** What n calls are charged. */
  function Sum(c: Config, n: nat, raw: RawUsage): Charge {
    Charge(n * Price(c, raw).tokens, n * Price(c, raw).micros)
  }

  predicate Runnable(c: Config, kind: string, raw: RawUsage) {
    ValidConfig(c) && kind in c.table && Parse(raw).1
  }

  function Go(p: nat, raw: RawUsage): Action {
    Advance(p, 0, "b", WithUsage(raw), true, true)
  }

  function Token(c: Config): Claims {
    Claims("b", "op", "w", c.tokenTTL)
  }

  function At(c: Config, stage: Stage, authorized: bool): Call {
    Call(Completion(Token(c)), stage, authorized, None, None)
  }

  function Issuing(stage: Stage): Call {
    Call(Issue("w", "op", 0, 1, 1), stage, false, None, None)
  }

  /** An operation with ceilings of one token and one millionth of a dollar, of which `used` are used. */
  function Spent(c: Config, used: Charge): Budget {
    Budget("b", "op", "w", 1, 1, c.wallClock, used.tokens, used.micros, None)
  }

  const FREE := Charge(0, 0)

  function Running(c: Config, kind: string, used: Charge, calls: seq<Call>): State {
    State(W.State(map["op" := WS.Operation("op", "w", kind, WS.Queued, 0, 0, 0, None)], map[], []),
          map["op" := Spent(c, used)], [], {Token(c)}, calls)
  }

  /** The token issue, then m calls that are charged and the others that are asking. */
  function Calls(c: Config, raw: RawUsage, n: nat, m: nat): seq<Call> {
    seq(n + 1, i requires 0 <= i <= n =>
      if i == 0 then Issuing(Ended) else if i <= m then At(c, Recording(Of(raw)), true) else At(c, Asking, true))
  }

  ghost predicate Reaches(c: Config, actions: seq<Action>, l: Limits, s: State) {
    Exec(c, Init(), actions) == s && Modest(c, Init(), actions, "op", l)
  }

  lemma {:induction false} ModestSnoc(c: Config, s: State, actions: seq<Action>, a: Action, l: Limits)
    requires Modest(c, s, actions, "op", l)
    requires InFlightCount(Step(c, Exec(c, s, actions), a), "op") <= l.calls
    requires a.Advance? && a.reply.WithUsage? ==> WithinLimits(c, l, Of(a.reply.raw))
    ensures Modest(c, s, actions + [a], "op", l)
    ensures Exec(c, s, actions + [a]) == Step(c, Exec(c, s, actions), a)
    decreases |actions|
  {
    var all := actions + [a];
    if actions == [] {
      assert all == [a] && all[1..] == [];
    } else {
      assert all[0] == actions[0] && all[1..] == actions[1..] + [a];
      ModestSnoc(c, Step(c, s, actions[0]), actions[1..], a, l);
    }
  }

  /** One more step of a run. */
  lemma Extend(c: Config, actions: seq<Action>, l: Limits, s: State, a: Action, t: State)
    requires Reaches(c, actions, l, s) && Step(c, s, a) == t && InFlightCount(t, "op") <= l.calls
    requires a.Advance? && a.reply.WithUsage? ==> WithinLimits(c, l, Of(a.reply.raw))
    ensures Reaches(c, actions + [a], l, t)
  {
    ModestSnoc(c, Init(), actions, a, l);
  }

  lemma Appended(c: Config, kind: string, used: Charge, calls: seq<Call>, call: Call)
    ensures InFlightCount(Running(c, kind, used, calls + [call]), "op")
         == InFlightCount(Running(c, kind, used, calls), "op") + FlightCount("op")(call)
  {
    TotalAppend(calls, call, FlightCount("op"));
  }

  lemma Setup(c: Config, kind: string, raw: RawUsage, k: nat) returns (actions: seq<Action>)
    requires Runnable(c, kind, raw)
    ensures Reaches(c, actions, Each(c, k, raw), Running(c, kind, FREE, [Issuing(Ended)]))
    ensures InFlightCount(Running(c, kind, FREE, [Issuing(Ended)]), "op") == 0
  {
    var l, issue := Each(c, k, raw), Arrive(Issue("w", "op", 0, 1, 1));
    var create := Work(W.Create("op", "w", kind, 0));
    var s1 := Step(c, Init(), create);
    var s2 := s1.(calls := [Issuing(IssueChecking)]);
    var s3 := s1.(calls := [Issuing(IssueCreating)]);
    Extend(c, [], l, Init(), create, s1);
    Extend(c, [] + [create], l, s1, issue, s2);
    actions := [] + [create] + [issue];
    Extend(c, actions, l, s2, Go(0, raw), s3);
    Extend(c, actions + [Go(0, raw)], l, s3, Go(0, raw), Running(c, kind, FREE, [Issuing(Ended)]));
    actions := actions + [Go(0, raw)] + [Go(0, raw)];
  }

  /** n calls that read the budget and ask the provider, none charged. */
  lemma {:induction false} Ask(c: Config, kind: string, raw: RawUsage, k: nat, n: nat) returns (actions: seq<Action>)
    requires Runnable(c, kind, raw) && n <= k
    ensures Reaches(c, actions, Each(c, k, raw), Running(c, kind, FREE, Calls(c, raw, n, 0)))
    ensures InFlightCount(Running(c, kind, FREE, Calls(c, raw, n, 0)), "op") == n
    decreases n
  {
    if n == 0 {
      actions := Setup(c, kind, raw, k);
      assert Calls(c, raw, 0, 0) == [Issuing(Ended)];
    } else {
      var before := Ask(c, kind, raw, k, n - 1);
      actions := AskOne(c, kind, raw, k, n, Calls(c, raw, n - 1, 0), before);
      assert Calls(c, raw, n - 1, 0) + [At(c, Asking, true)] == Calls(c, raw, n, 0);
    }
  }

  lemma AskOne(c: Config, kind: string, raw: RawUsage, k: nat, n: nat, calls: seq<Call>, before: seq<Action>)
    returns (actions: seq<Action>)
    requires Runnable(c, kind, raw) && 0 < n <= k && |calls| == n
    requires Reaches(c, before, Each(c, k, raw), Running(c, kind, FREE, calls))
    requires InFlightCount(Running(c, kind, FREE, calls), "op") == n - 1
    ensures Reaches(c, actions, Each(c, k, raw), Running(c, kind, FREE, calls + [At(c, Asking, true)]))
    ensures InFlightCount(Running(c, kind, FREE, calls + [At(c, Asking, true)]), "op") == n
  {
    var l, arrived := Each(c, k, raw), At(c, Verifying, false);
    Appended(c, kind, FREE, calls, arrived);
    Extend(
      c, before, l, Running(c, kind, FREE, calls), Arrive(arrived.request), Running(c, kind, FREE, calls + [arrived]));
    actions := before + [Arrive(arrived.request)];
    actions := NextStage(c, kind, raw, l, n, calls, actions, arrived, At(c, Fetching, false));
    FetchNext(c, kind, raw, n, calls);
    var checking := At(c, Checking(Spent(c, FREE)), false);
    actions := NextStage(c, kind, raw, l, n, calls, actions, At(c, Fetching, false), checking);
    CheckNext(c, kind, raw, n, calls);
    actions := NextStage(c, kind, raw, l, n, calls, actions, checking, At(c, Asking, true));
    Appended(c, kind, FREE, calls, At(c, Asking, true));
  }

  lemma FetchNext(c: Config, kind: string, raw: RawUsage, n: nat, calls: seq<Call>)
    requires |calls| == n
    ensures Step(c, Running(c, kind, FREE, calls + [At(c, Fetching, false)]), Go(n, raw))
         == Running(c, kind, FREE, calls + [At(c, Checking(Spent(c, FREE)), false)])
  {
  }

  lemma CheckNext(c: Config, kind: string, raw: RawUsage, n: nat, calls: seq<Call>)
    requires ValidConfig(c) && |calls| == n
    ensures Step(c, Running(c, kind, FREE, calls + [At(c, Checking(Spent(c, FREE)), false)]), Go(n, raw))
         == Running(c, kind, FREE, calls + [At(c, Asking, true)])
  {
  }

  /** The last call moves on. */
  lemma NextStage(
    c: Config, kind: string, raw: RawUsage, l: Limits, n: nat, calls: seq<Call>, before: seq<Action>,
    last: Call, next: Call)
    returns (actions: seq<Action>)
    requires Reaches(c, before, l, Running(c, kind, FREE, calls + [last]))
    requires InFlightCount(Running(c, kind, FREE, calls), "op") < l.calls
    requires Step(c, Running(c, kind, FREE, calls + [last]), Go(n, raw)) == Running(c, kind, FREE, calls + [next])
    requires WithinLimits(c, l, Of(raw))
    ensures Reaches(c, actions, l, Running(c, kind, FREE, calls + [next]))
  {
    Appended(c, kind, FREE, calls, next);
    Extend(c, before, l, Running(c, kind, FREE, calls + [last]), Go(n, raw), Running(c, kind, FREE, calls + [next]));
    actions := before + [Go(n, raw)];
  }

  /** Then m of them are charged. */
  lemma {:induction false} ChargeMany(c: Config, kind: string, raw: RawUsage, k: nat, m: nat)
    returns (actions: seq<Action>)
    requires Runnable(c, kind, raw) && m <= k
    ensures Reaches(c, actions, Each(c, k, raw), Running(c, kind, Sum(c, m, raw), Calls(c, raw, k, m)))
    ensures InFlightCount(Running(c, kind, Sum(c, m, raw), Calls(c, raw, k, m)), "op") == k - m
    decreases m
  {
    if m == 0 {
      actions := Ask(c, kind, raw, k, k);
    } else {
      var before := ChargeMany(c, kind, raw, k, m - 1);
      CallsNext(c, raw, k, m);
      SumNext(c, raw, m);
      actions := ChargeOne(c, kind, raw, k, m, Sum(c, m - 1, raw), Calls(c, raw, k, m - 1), before);
    }
  }

  lemma CallsNext(c: Config, raw: RawUsage, k: nat, m: nat)
    requires 0 < m <= k
    ensures Calls(c, raw, k, m - 1)[m] == At(c, Asking, true)
    ensures Calls(c, raw, k, m - 1)[m := At(c, Recording(Of(raw)), true)] == Calls(c, raw, k, m)
  {
  }

  lemma SumNext(c: Config, raw: RawUsage, m: nat)
    requires m > 0
    ensures var sum := Sum(c, m - 1, raw);
      Charge(sum.tokens + Price(c, raw).tokens, sum.micros + Price(c, raw).micros) == Sum(c, m, raw)
  {
    OneMore(m, Price(c, raw).tokens);
    OneMore(m, Price(c, raw).micros);
  }

  lemma OneMore(m: nat, x: int)
    requires m > 0
    ensures (m - 1) * x + x == m * x
  {
  }

  lemma ChargeOne(
    c: Config, kind: string, raw: RawUsage, k: nat, m: nat, used: Charge, calls: seq<Call>, before: seq<Action>)
    returns (actions: seq<Action>)
    requires Runnable(c, kind, raw) && 0 < m <= k && m < |calls| && calls[m] == At(c, Asking, true)
    requires Reaches(c, before, Each(c, k, raw), Running(c, kind, used, calls))
    requires InFlightCount(Running(c, kind, used, calls), "op") == k - (m - 1)
    ensures var after := Running(
        c, kind, Charge(used.tokens + Price(c, raw).tokens, used.micros + Price(c, raw).micros),
        calls[m := At(c, Recording(Of(raw)), true)]);
      Reaches(c, actions, Each(c, k, raw), after) && InFlightCount(after, "op") == k - m
  {
    var l, more := Each(c, k, raw), Charge(used.tokens + Price(c, raw).tokens, used.micros + Price(c, raw).micros);
    var charging, recording := At(c, Charging(Of(raw)), true), At(c, Recording(Of(raw)), true);
    TotalUpdate(calls, m, charging, FlightCount("op"));
    AnswerNext(c, kind, raw, m, used, calls);
    Extend(c, before, l, Running(c, kind, used, calls), Go(m, raw), Running(c, kind, used, calls[m := charging]));
    TotalUpdate(calls, m, recording, FlightCount("op"));
    ChargeNext(c, kind, raw, m, used, calls);
    Extend(c, before + [Go(m, raw)], l, Running(c, kind, used, calls[m := charging]), Go(m, raw),
           Running(c, kind, more, calls[m := recording]));
    actions := before + [Go(m, raw)] + [Go(m, raw)];
  }

  lemma AnswerNext(c: Config, kind: string, raw: RawUsage, m: nat, used: Charge, calls: seq<Call>)
    requires Parse(raw).1 && m < |calls| && calls[m] == At(c, Asking, true)
    ensures Step(c, Running(c, kind, used, calls), Go(m, raw))
         == Running(c, kind, used, calls[m := At(c, Charging(Of(raw)), true)])
  {
  }

  lemma ChargeNext(c: Config, kind: string, raw: RawUsage, m: nat, used: Charge, calls: seq<Call>)
    requires m < |calls|
    ensures Step(c, Running(c, kind, used, calls[m := At(c, Charging(Of(raw)), true)]), Go(m, raw))
         == Running(c, kind, Charge(used.tokens + Price(c, raw).tokens, used.micros + Price(c, raw).micros),
                    calls[m := At(c, Recording(Of(raw)), true)])
  {
    var recording := At(c, Recording(Of(raw)), true);
    assert calls[m := At(c, Charging(Of(raw)), true)][m := recording] == calls[m := recording];
  }

  /** For every k and every usage a provider may report there is a run with at most k calls in flight, each
      charging no more than that usage, in which tokens and cost are both exactly the ceiling minus one plus
      k times its charge: OvershootBound cannot be improved. */
  lemma OvershootReached(c: Config, kind: string, k: nat, raw: RawUsage)
    requires Runnable(c, kind, raw)
    ensures exists actions ::
      var s, l := Exec(c, Init(), actions), Each(c, k, raw);
      && Modest(c, Init(), actions, "op", l) && "op" in s.budgets
      && Used(s.budgets["op"], Tokens) == Ceiling(s.budgets["op"], Tokens) - 1 + k * Limit(l, Tokens)
      && Used(s.budgets["op"], Micros) == Ceiling(s.budgets["op"], Micros) - 1 + k * Limit(l, Micros)
  {
    var actions := ChargeMany(c, kind, raw, k, k);
    var s := Exec(c, Init(), actions);
    assert Modest(c, Init(), actions, "op", Each(c, k, raw));
    assert s.budgets["op"] == Spent(c, Sum(c, k, raw));
  }

  /** Any usage is charged, its row is not written, and the revocation that should follow is lost: at rest the
      stores differ by its whole charge although the budget is not revoked. */
  lemma LostRevocationDisagrees(c: Config, kind: string, raw: RawUsage)
    requires Runnable(c, kind, raw)
    ensures exists actions ::
      var s := Exec(c, Init(), actions);
      && Quiescent(s, "op") && "op" in s.budgets && s.budgets["op"].revokedAt == None
      && UsedAt(s, "op", Tokens) == RowsTotal(s, "op", Tokens) + Price(c, raw).tokens
      && UsedAt(s, "op", Micros) == RowsTotal(s, "op", Micros) + Price(c, raw).micros
  {
    var actions := LoseRow(c, kind, raw);
    var s := LostRow(c, kind, raw);
    assert Exec(c, Init(), actions) == s && Quiescent(s, "op");
  }

  function LostRow(c: Config, kind: string, raw: RawUsage): State {
    var lost := At(c, Ended, true).(lost := Some(Of(raw)));
    Running(c, kind, Price(c, raw), [Issuing(Ended), lost])
  }

  /** One call is charged, then loses its row, then its revocation. */
  lemma LoseRow(c: Config, kind: string, raw: RawUsage) returns (actions: seq<Action>)
    requires Runnable(c, kind, raw)
    ensures Reaches(c, actions, Each(c, 1, raw), LostRow(c, kind, raw))
  {
    var l, u := Each(c, 1, raw), Of(raw);
    var before := ChargeMany(c, kind, raw, 1, 1);
    var lose := Advance(1, 0, "b", Unaccounted, false, false);
    var charged, lost := At(c, Recording(u), true), At(c, Revoking, true).(lost := Some(u));
    assert Calls(c, raw, 1, 1) == [Issuing(Ended), charged] && Sum(c, 1, raw) == Price(c, raw);
    var s0 := Running(c, kind, Price(c, raw), [Issuing(Ended), charged]);
    var s1 := Running(c, kind, Price(c, raw), [Issuing(Ended), lost]);
    LoseNext(c, kind, raw);
    NoneInFlight(s1);
    NoneInFlight(LostRow(c, kind, raw));
    Extend(c, before, l, s0, lose, s1);
    Extend(c, before + [lose], l, s1, lose, LostRow(c, kind, raw));
    actions := before + [lose] + [lose];
  }

  lemma LoseNext(c: Config, kind: string, raw: RawUsage)
    ensures var lose, u := Advance(1, 0, "b", Unaccounted, false, false), Of(raw);
      var s0 := Running(c, kind, Price(c, raw), [Issuing(Ended), At(c, Recording(u), true)]);
      var s1 := Running(c, kind, Price(c, raw), [Issuing(Ended), At(c, Revoking, true).(lost := Some(u))]);
      Step(c, s0, lose) == s1 && Step(c, s1, lose) == LostRow(c, kind, raw)
  {
  }

  lemma NoneInFlight(s: State)
    requires forall p :: 0 <= p < |s.calls| ==> !InFlight(s.calls[p], "op")
    ensures InFlightCount(s, "op") == 0
  {
    TotalZero(s.calls, FlightCount("op"));
  }
}
