/** The workflow package's in-memory store: operations and their append-only event logs. */
module WorkflowStore {
  import opened Options
  import opened Ranking
  import opened Sequences

  /** Invalid stands for any other string a caller may pass as a status. */
  datatype Status = Queued | Running | Succeeded | Failed | Invalid(text: string)

  datatype Scalar = Text(text: string) | Flag(flag: bool) | Number(number: real) | Structured

  type Metadata = map<string, Scalar>

  datatype Operation = Operation(
    id: string, scope: string, kind: string, status: Status, lastSequence: int,
    createdAt: int, updatedAt: int, completedAt: Option<int>)

  datatype Event = Event(
    operationID: string, sequence: int, stepID: string, stepLabel: string, status: Status,
    timestamp: int, metadata: Metadata)

  datatype StoreError = Conflict | NotFound | Terminal

  datatype Result<+T> = Ok(value: T) | Err(error: StoreError)

  type Operations = map<string, Operation>
  type Events = map<string, seq<Event>>

  predicate IsTerminal(status: Status) {
    status == Succeeded || status == Failed
  }

  function EventsOf(events: Events, id: string): seq<Event> {
    if id in events then events[id] else []
  }

  function Found(ops: Operations, scope: string, id: string): Result<Operation> {
    if id in ops && ops[id].scope == scope then Ok(ops[id]) else Err(NotFound)
  }

  function Created(ops: Operations, op: Operation): Result<Operations> {
    if op.id in ops then Err(Conflict) else Ok(ops[op.id := op])
  }

  function Advanced(op: Operation, event: Event, status: Status): Operation {
    op.(lastSequence := op.lastSequence + 1, status := status, updatedAt := event.timestamp,
        completedAt := if IsTerminal(status) then Some(event.timestamp) else op.completedAt)
  }

  function Appended(ops: Operations, events: Events, scope: string, id: string, event: Event, status: Status)
    : Result<(Operations, Events)>
  {
    match Found(ops, scope, id)
    case Err(e) => Err(e)
    case Ok(op) =>
      if IsTerminal(op.status) then Err(Terminal) else
      var stored := event.(operationID := op.id, sequence := op.lastSequence + 1);
      Ok((ops[id := Advanced(op, event, status)], events[id := EventsOf(events, id) + [stored]]))
  }

  /** Sequence numbers are exactly 1, 2, ... in order. */
  ghost predicate WellSequenced(es: seq<Event>) {
    forall i :: 0 <= i < |es| ==> es[i].sequence == i + 1
  }

  function After(es: seq<Event>, afterSequence: int): seq<Event> {
    if es == [] then []
    else (if es[0].sequence > afterSequence then [es[0]] else []) + After(es[1..], afterSequence)
  }

  lemma AfterNext(log: seq<Event>, i: nat, afterSequence: int, out: seq<Event>)
    requires i < |log|
    ensures out + After(log[i..], afterSequence) ==
      (if log[i].sequence > afterSequence then out + [log[i]] else out) + After(log[i + 1..], afterSequence)
  {
    Advance(log, i);
    Regroup(out, log[i], After(log[i + 1..], afterSequence));
  }

  /** Ascending sequence numbers, as the descending numbers of Ranking. */
  function SequenceRank(): Event -> Rank {
    (e: Event) => Rank(-e.sequence, "")
  }

  /** In a well-sequenced log the events after a sequence number are a suffix of the log. */
  lemma {:induction false} AfterIsSuffix(es: seq<Event>, first: nat, afterSequence: nat)
    requires forall i :: 0 <= i < |es| ==> es[i].sequence == first + i + 1
    ensures After(es, afterSequence)
         == if afterSequence <= first then es
            else if afterSequence - first <= |es| then es[afterSequence - first..] else []
  {
    if es != [] {
      AfterIsSuffix(es[1..], first + 1, afterSequence);
      assert es == [es[0]] + es[1..];
    }
  }

  class InMemoryStore {
    var operations: Operations
    var events: Events

    constructor ()
      ensures operations == map[] && events == map[]
    {
      operations, events := map[], map[];
    }

    method CreateOperation(op: Operation) returns (r: Result<Operation>)
      modifies this`operations
      ensures match Created(old(operations), op)
        case Err(e) => r == Err(e) && operations == old(operations)
        case Ok(next) => r == Ok(op) && operations == next
    {
      if op.id in operations {
        return Err(Conflict);
      }
      operations := operations[op.id := op];
      return Ok(op);
    }

    method GetOperation(scope: string, id: string) returns (r: Result<Operation>)
      ensures r == Found(operations, scope, id)
    {
      if id !in operations || operations[id].scope != scope {
        return Err(NotFound);
      }
      return Ok(operations[id]);
    }

    method AppendEvent(scope: string, id: string, event: Event, status: Status) returns (r: Result<(Operation, Event)>)
      modifies this
      ensures match Appended(old(operations), old(events), scope, id, event, status)
        case Err(e) => r == Err(e) && operations == old(operations) && events == old(events)
        case Ok(next) =>
          && operations == next.0 && events == next.1
          && r == Ok((operations[id], events[id][|events[id]| - 1]))
    {
      if id !in operations || operations[id].scope != scope {
        return Err(NotFound);
      }
      var op := operations[id];
      if IsTerminal(op.status) {
        return Err(Terminal);
      }
      op := op.(lastSequence := op.lastSequence + 1);
      var stored := event.(operationID := op.id, sequence := op.lastSequence);
      op := op.(status := status, updatedAt := event.timestamp);
      if IsTerminal(status) {
        op := op.(completedAt := Some(event.timestamp));
      }
      operations := operations[id := op];
      var log := if id in events then events[id] else [];
      events := events[id := log + [stored]];
      return Ok((op, stored));
    }

    /** The events after a sequence number, in sequence order, at most `limit` of them when limit is
        positive. */
    method ListEvents(scope: string, id: string, afterSequence: nat, limit: int) returns (r: Result<seq<Event>>)
      ensures match Found(operations, scope, id)
        case Err(e) => r == Err(e)
        case Ok(_) => r.Ok? && (WellSequenced(EventsOf(events, id)) ==>
          r.value == Page(EventsOf(events, id), afterSequence, limit))
    {
      if id !in operations || operations[id].scope != scope {
        return Err(NotFound);
      }
      var log := if id in events then events[id] else [];
      var out := SelectAfter(log, afterSequence);
      var sorted := Sort(out, SequenceRank());
      if WellSequenced(log) {
        SuffixSorted(log, afterSequence, sorted);
        CutIsPage(log, afterSequence, limit, sorted);
      }
      if limit > 0 && |sorted| > limit {
        sorted := sorted[..limit];
      }
      return Ok(sorted);
    }

    method SelectAfter(log: seq<Event>, afterSequence: int) returns (out: seq<Event>)
      ensures out == After(log, afterSequence)
    {
      out := [];
      for i := 0 to |log|
        invariant After(log, afterSequence) == out + After(log[i..], afterSequence)
      {
        AfterNext(log, i, afterSequence, out);
        if log[i].sequence > afterSequence {
          out := out + [log[i]];
        }
      }
    }
  }

  /** The page of a log after a sequence number: the rest of the log, or its first `limit` events. */
  function Page(log: seq<Event>, afterSequence: nat, limit: int): seq<Event> {
    var start := if afterSequence <= |log| then afterSequence else |log|;
    log[start..PageEnd(log, start, limit)]
  }

  function PageEnd(log: seq<Event>, start: nat, limit: int): (end: nat)
    requires start <= |log|
    ensures start <= end <= |log|
  {
    if limit > 0 && |log| - start > limit then start + limit else |log|
  }

  lemma CutIsPage(log: seq<Event>, afterSequence: nat, limit: int, rest: seq<Event>)
    requires rest == log[if afterSequence <= |log| then afterSequence else |log|..]
    ensures (if limit > 0 && |rest| > limit then rest[..limit] else rest) == Page(log, afterSequence, limit)
  {
  }

  /** Pages resumed from the last sequence number seen make up the log: nothing skipped, nothing twice. */
  function Read(log: seq<Event>, afterSequence: nat, limit: nat): seq<Event>
    requires limit > 0
    decreases |log| - afterSequence
  {
    var page := Page(log, afterSequence, limit);
    if page == [] then [] else page + Read(log, afterSequence + |page|, limit)
  }

  /** A page is the events numbered from there on, all of them or the first `limit`. */
  lemma PageIs(log: seq<Event>, afterSequence: nat, limit: int)
    requires WellSequenced(log) && afterSequence <= |log|
    ensures var page, rest := Page(log, afterSequence, limit), |log| - afterSequence;
      && |page| == (if 0 < limit < rest then limit else rest)
      && forall i :: 0 <= i < |page| ==> page[i] == log[afterSequence + i] && page[i].sequence == afterSequence + i + 1
  {
  }

  lemma {:induction false} PagesCoverLog(log: seq<Event>, afterSequence: nat, limit: nat)
    requires WellSequenced(log) && limit > 0 && afterSequence <= |log|
    ensures Read(log, afterSequence, limit) == log[afterSequence..]
    ensures var page := Page(log, afterSequence, limit);
      page != [] ==> page[|page| - 1].sequence == afterSequence + |page|
    decreases |log| - afterSequence
  {
    var end := PageEnd(log, afterSequence, limit);
    if end > afterSequence {
      PagesCoverLog(log, end, limit);
      Rejoin(log, afterSequence, end);
    }
  }

  lemma Rejoin(log: seq<Event>, i: nat, j: nat)
    requires i <= j <= |log|
    ensures log[i..j] + log[j..] == log[i..]
  {
  }

  lemma SuffixSorted(log: seq<Event>, afterSequence: nat, sorted: seq<Event>)
    requires WellSequenced(log)
    requires WeaklyRanked(sorted, SequenceRank())
    requires multiset(sorted) == multiset(After(log, afterSequence))
    ensures sorted == log[if afterSequence <= |log| then afterSequence else |log|..]
  {
    AfterIsSuffix(log, 0, afterSequence);
    var suffix := log[if afterSequence <= |log| then afterSequence else |log|..];
    assert After(log, afterSequence) == suffix;
    assert WeaklyRanked(suffix, SequenceRank()) by {
      forall i, j | 0 <= i < j < |suffix|
        ensures !Before(SequenceRank()(suffix[j]), SequenceRank()(suffix[i]))
      {
        assert suffix[i].sequence < suffix[j].sequence;
      }
    }
    assert RankDetermines(suffix, SequenceRank());
    WeaklyRankedUnique(suffix, sorted, SequenceRank());
  }
}
