/** The agentrelay package's in-memory store: one budget per operation, keyed by the operation's id. */
module RelayBudget {
  import opened Options
  import opened UsageLedger

  datatype Budget = Budget(
    id: string, operationID: string, scope: string, maxTokens: int, maxMicros: int, deadline: int,
    usedTokens: int, usedMicros: int, revokedAt: Option<int>)

  datatype StoreError = Conflict | NotFound

  datatype Result<+T> = Ok(value: T) | Err(error: StoreError)

  type Budgets = map<string, Budget>

  function Found(budgets: Budgets, scope: string, operationID: string): Result<Budget> {
    if operationID in budgets && budgets[operationID].scope == scope then Ok(budgets[operationID]) else Err(NotFound)
  }

  function Created(budgets: Budgets, b: Budget): Result<Budgets> {
    if b.operationID in budgets then Err(Conflict) else Ok(budgets[b.operationID := b])
  }

  function Revoked(b: Budget, at: int): Budget {
    b.(revokedAt := Some(at))
  }

  function WithRevocation(budgets: Budgets, scope: string, operationID: string, at: int): Budgets {
    var found := Found(budgets, scope, operationID);
    if found.Err? then budgets else budgets[operationID := Revoked(found.value, at)]
  }

  function Charged(b: Budget, c: Charge): Budget {
    b.(usedTokens := b.usedTokens + c.tokens, usedMicros := b.usedMicros + c.micros)
  }

  class InMemoryStore {
    var budgets: Budgets

    constructor ()
      ensures budgets == map[]
    {
      budgets := map[];
    }

    method Create(b: Budget) returns (r: Result<Budget>)
      modifies this
      ensures match Created(old(budgets), b)
        case Err(e) => r == Err(e) && budgets == old(budgets)
        case Ok(next) => r == Ok(b) && budgets == next
    {
      if b.operationID in budgets {
        return Err(Conflict);
      }
      budgets := budgets[b.operationID := b];
      return Ok(b);
    }

    method Get(scope: string, operationID: string) returns (r: Result<Budget>)
      ensures r == Found(budgets, scope, operationID)
    {
      if operationID !in budgets || budgets[operationID].scope != scope {
        return Err(NotFound);
      }
      return Ok(budgets[operationID]);
    }

    method Revoke(scope: string, operationID: string, at: int) returns (ok: bool)
      modifies this
      ensures ok <==> Found(old(budgets), scope, operationID).Ok?
      ensures budgets == WithRevocation(old(budgets), scope, operationID, at)
    {
      if operationID !in budgets || budgets[operationID].scope != scope {
        return false;
      }
      budgets := budgets[operationID := budgets[operationID].(revokedAt := Some(at))];
      return true;
    }

    method AddUsage(scope: string, operationID: string, c: Charge) returns (r: Result<Budget>)
      modifies this
      ensures match Found(old(budgets), scope, operationID)
        case Err(e) => r == Err(e) && budgets == old(budgets)
        case Ok(b) => r == Ok(Charged(b, c)) && budgets == old(budgets)[operationID := Charged(b, c)]
    {
      if operationID !in budgets || budgets[operationID].scope != scope {
        return Err(NotFound);
      }
      var b := budgets[operationID];
      b := b.(usedTokens := b.usedTokens + c.tokens);
      b := b.(usedMicros := b.usedMicros + c.micros);
      budgets := budgets[operationID := b];
      return Ok(b);
    }
  }
}
