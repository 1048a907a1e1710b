/** Which step a cancellation marks failed, and what the log of an operation says about the calls that wrote
    it. */
module WorkflowSteps {
  import opened Options
  import opened WorkflowStore
  import opened Workflow
  import Sequences
  import Text

  // ---- the step a cancellation picks ----

  /** Event i is the first of its step. */
  predicate FirstOfStep(events: seq<Event>, i: int) {
    0 <= i < |events| && forall j :: 0 <= j < i ==> events[j].stepID != events[i].stepID
  }

  /** Event k is the last of its step. */
  predicate LastOfStep(events: seq<Event>, k: int) {
    0 <= k < |events| && forall j :: k < j < |events| ==> events[j].stepID != events[k].stepID
  }

  /** The step that first appears in event i was last reported with this status. */
  ghost predicate Stands(events: seq<Event>, i: int, status: Status) {
    && FirstOfStep(events, i)
    && exists k :: LastOfStep(events, k) && events[k].stepID == events[i].stepID && events[k].status == status
  }

  /** The step of event i is the first to appear among those that stand so. */
  ghost predicate FirstStanding(events: seq<Event>, i: int, status: Status) {
    Stands(events, i, status) && forall j :: 0 <= j < i ==> !Stands(events, j, status)
  }

  ghost predicate NoneStands(events: seq<Event>, status: Status) {
    forall j :: 0 <= j < |events| ==> !Stands(events, j, status)
  }

  /** The first running step; if none runs, the first queued one; if there is none either, the step that
      appeared last. */
  ghost predicate Picks(events: seq<Event>, i: int) {
    if !NoneStands(events, Running) then FirstStanding(events, i, Running)
    else if !NoneStands(events, Queued) then FirstStanding(events, i, Queued)
    else FirstOfStep(events, i) && forall j :: i < j ==> !FirstOfStep(events, j)
  }

  lemma {:induction false} LatestIff(events: seq<Event>, step: string, status: Status)
    ensures LatestIs(events, step, status) <==>
      exists k :: LastOfStep(events, k) && events[k].stepID == step && events[k].status == status
  {
    if events != [] {
      var front, n := events[..|events| - 1], |events| - 1;
      LatestIff(front, step, status);
      if events[n].stepID == step {
        assert LastOfStep(events, n);
      } else {
        if k :| LastOfStep(front, k) && front[k].stepID == step && front[k].status == status {
          assert LastOfStep(events, k);
        }
        if k :| LastOfStep(events, k) && events[k].stepID == step && events[k].status == status {
          assert LastOfStep(front, k);
        }
      }
    }
  }

  /** Where the steps of Order first appear. */
  function Places(events: seq<Event>): seq<nat> {
    if events == [] then [] else
    var front, n := events[..|events| - 1], |events| - 1;
    if Latest(front, events[n].stepID) != None then Places(front) else Places(front) + [n]
  }

  lemma {:induction false} Unreported(events: seq<Event>, step: string)
    ensures Latest(events, step) == None <==> forall j :: 0 <= j < |events| ==> events[j].stepID != step
  {
    if events != [] {
      var front := events[..|events| - 1];
      Unreported(front, step);
      assert forall j :: 0 <= j < |front| ==> front[j] == events[j];
    }
  }

  lemma {:induction false} PlacesAre(events: seq<Event>)
    ensures |Places(events)| == |Order(events)|
    ensures forall n :: 0 <= n < |Order(events)| ==>
      FirstOfStep(events, Places(events)[n]) && events[Places(events)[n]].stepID == Order(events)[n]
    ensures forall n, m :: 0 <= n < m < |Places(events)| ==> Places(events)[n] < Places(events)[m]
    ensures forall i :: FirstOfStep(events, i) ==> i in Places(events)
  {
    if events != [] {
      var front, last := events[..|events| - 1], |events| - 1;
      PlacesAre(front);
      Unreported(front, events[last].stepID);
      forall i | FirstOfStep(events, i) ensures i in Places(events) {
        if i < last {
          assert FirstOfStep(front, i);
        }
      }
      forall n | 0 <= n < |Places(front)| ensures FirstOfStep(events, Places(front)[n]) {
        assert FirstOfStep(front, Places(front)[n]);
      }
    }
  }

  /** The first step in the order that stands so. */
  lemma {:induction false} FirstHavingAt(order: seq<string>, events: seq<Event>, status: Status) returns (n: nat)
    ensures n <= |order| && forall m :: 0 <= m < n ==> !LatestIs(events, order[m], status)
    ensures if n == |order| then FirstHaving(order, events, status) == None
      else LatestIs(events, order[n], status) && FirstHaving(order, events, status) == Some(order[n])
  {
    if order == [] || LatestIs(events, order[0], status) {
      n := 0;
    } else {
      var k := FirstHavingAt(order[1..], events, status);
      n := k + 1;
      forall m | 0 <= m < n ensures !LatestIs(events, order[m], status) {
        if m > 0 { assert order[m] == order[1..][m - 1]; }
      }
    }
  }

  lemma FirstHavingIs(events: seq<Event>, status: Status)
    ensures match FirstHaving(Order(events), events, status)
      case None => NoneStands(events, status)
      case Some(step) => exists i :: FirstStanding(events, i, status) && events[i].stepID == step
  {
    var order, places := Order(events), Places(events);
    PlacesAre(events);
    var n := FirstHavingAt(order, events, status);
    forall m | 0 <= m < |order| ensures Stands(events, places[m], status) <==> LatestIs(events, order[m], status) {
      LatestIff(events, order[m], status);
    }
    forall j | Stands(events, j, status) ensures n < |order| && places[n] <= j {
      var m :| 0 <= m < |places| && places[m] == j;
      assert n <= m;
    }
    if n < |order| {
      assert FirstStanding(events, places[n], status);
    }
  }

  /** The step a cancellation marks failed. */
  lemma CancelledStep(events: seq<Event>)
    ensures if events == [] then FirstActive(events) == ""
      else exists i :: 0 <= i < |events| && Picks(events, i) && events[i].stepID == FirstActive(events)
  {
    if events != [] {
      FirstHavingIs(events, Running);
      FirstHavingIs(events, Queued);
      PlacesAre(events);
      assert FirstOfStep(events, 0);
      if NoneStands(events, Running) && NoneStands(events, Queued) {
        var i := Places(events)[|Places(events)| - 1];
        assert Picks(events, i);
      }
    }
  }
}
