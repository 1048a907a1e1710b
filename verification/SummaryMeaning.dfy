/** What a summary says of the event log, in terms of the log alone. */
module SummaryMeaning {
  import opened Notes
  import opened Options
  import opened Ranking
  import opened Sequences
  import opened Summarizer
  import opened Text

  // ---- skills ----

  /** The time an event was practised at: when it occurred, else when it was recorded, else now. */
  predicate PractisedAt(e: Event, now: int, t: int) {
    && (e.occurredAt != 0 ==> t == e.occurredAt)
    && (e.occurredAt == 0 && e.createdAt != 0 ==> t == e.createdAt)
    && (e.occurredAt == 0 && e.createdAt == 0 ==> t == now)
  }

  predicate Labels(e: Event, slug: string -> string, id: string) {
    exists k :: 0 <= k < |e.skills| && slug(e.skills[k]) == id
  }

  /** The latest time a skill was practised, 0 before any. */
  ghost predicate LatestAt(events: seq<Event>, slug: string -> string, now: int, id: string, t: int) {
    && t >= 0
    && (forall i, at :: 0 <= i < |events| && Labels(events[i], slug, id) && PractisedAt(events[i], now, at) ==> at <= t)
    && (t != 0 ==> exists i :: 0 <= i < |events| && Labels(events[i], slug, id) && PractisedAt(events[i], now, t))
  }

  /** All labels of the log, in order. */
  function LogLabels(events: seq<Event>): seq<string> {
    if events == [] then [] else LogLabels(events[..|events| - 1]) + events[|events| - 1].skills
  }

  ghost predicate FirstLabel(labels: seq<string>, slug: string -> string, id: string, name: string) {
    exists i ::
      0 <= i < |labels| && labels[i] == name && slug(name) == id && forall j :: 0 <= j < i ==> slug(labels[j]) != id
  }

  /** Level, confidence and trend of a skill tried `tries` times, won and lost so often. */
  predicate Rates(k: Skill, tries: int, wins: int, losses: int) {
    && 1 <= k.level <= 5
    && (|| k.level == 2 + wins - losses
        || (k.level == 1 && 2 + wins - losses < 1) || (k.level == 5 && 2 + wins - losses > 5))
    && 25 <= k.confidence <= 95
    && (k.confidence == 25 + 15 * tries || (k.confidence == 95 && 25 + 15 * tries > 95))
    && -1 <= k.trend <= 1 && (k.trend == 1 <==> wins > losses) && (k.trend == -1 <==> losses > wins)
  }

  ghost predicate Describes(k: Skill, events: seq<Event>, slug: string -> string, now: int) {
    && Tries(events, slug, k.id) > 0
    && FirstLabel(LogLabels(events), slug, k.id, k.name)
    && Rates(k, Tries(events, slug, k.id), Wins(events, slug, k.id), Losses(events, slug, k.id))
    && LatestAt(events, slug, now, k.id, k.lastPracticed)
  }

  // ---- the fold ----

  ghost predicate SaysNames(stats: Stats, labels: seq<string>, slug: string -> string) {
    && (forall id :: id in stats ==> FirstLabel(labels, slug, id, stats[id].name))
    && (forall k :: 0 <= k < |labels| ==> slug(labels[k]) in stats)
  }

  lemma LabelNamed(stats: Stats, labels: seq<string>, name: string, slug: string -> string, e: Event, now: int)
    requires SaysNames(stats, labels, slug)
    ensures SaysNames(WithLabel(stats, slug, name, e, now), labels + [name], slug)
  {
    var all, after := labels + [name], WithLabel(stats, slug, name, e, now);
    forall id | id in after ensures FirstLabel(all, slug, id, after[id].name) {
      if id in stats {
        var i :| 0 <= i < |labels| && labels[i] == stats[id].name && slug(stats[id].name) == id
          && forall j :: 0 <= j < i ==> slug(labels[j]) != id;
        assert all[i] == labels[i] && forall j :: 0 <= j < i ==> all[j] == labels[j];
      } else {
        assert all[|labels|] == name;
      }
    }
  }

  lemma {:induction false} LabelsNamed(
    stats: Stats, labels: seq<string>, names: seq<string>, slug: string -> string, e: Event, now: int)
    requires SaysNames(stats, labels, slug)
    ensures SaysNames(WithLabels(stats, slug, names, e, now), labels + names, slug)
  {
    if names == [] {
      assert labels + names == labels;
    } else {
      var front, name := names[..|names| - 1], names[|names| - 1];
      LabelsNamed(stats, labels, front, slug, e, now);
      LabelNamed(WithLabels(stats, slug, front, e, now), labels + front, name, slug, e, now);
      SplitLast(names);
      Associate(labels, front, [name]);
    }
  }

  lemma {:induction false} StatsNamed(events: seq<Event>, slug: string -> string, now: int)
    ensures SaysNames(StatsOf(events, slug, now), LogLabels(events), slug)
  {
    if events != [] {
      var front, e := events[..|events| - 1], events[|events| - 1];
      StatsNamed(front, slug, now);
      LabelsNamed(StatsOf(front, slug, now), LogLabels(front), e.skills, slug, e, now);
    }
  }

  ghost predicate SaysTimes(stats: Stats, events: seq<Event>, slug: string -> string, now: int) {
    && (forall id :: id in stats ==> LatestAt(events, slug, now, id, stats[id].lastPracticed))
    && (forall i, id :: 0 <= i < |events| && Labels(events[i], slug, id) ==> id in stats)
  }

  /** One more label of the last event. */
  lemma LabelTimed(
    stats: Stats, events: seq<Event>, e: Event, front: seq<string>, name: string, slug: string -> string, now: int)
    requires SaysTimes(stats, events + [e.(skills := front)], slug, now)
    ensures SaysTimes(WithLabel(stats, slug, name, e, now), events + [e.(skills := front + [name])], slug, now)
  {
    var before, after := events + [e.(skills := front)], events + [e.(skills := front + [name])];
    var next := WithLabel(stats, slug, name, e, now);
    forall i, id | 0 <= i < |after| ensures Labels(after[i], slug, id) <==>
      Labels(before[i], slug, id) || (i == |events| && slug(name) == id)
    {
      if i < |events| {
        assert after[i] == before[i];
      } else {
        LabelsMore(e, front, name, slug, id);
      }
    }
    forall id | id in next ensures LatestAt(after, slug, now, id, next[id].lastPracticed) {
      if id == slug(name) {
        LatestNow(before, after, slug, now, id, if id in stats then stats[id].lastPracticed else 0, e, |events|);
      } else {
        LatestStays(before, after, slug, now, id, stats[id].lastPracticed);
      }
    }
  }

  lemma LatestStays(
    before: seq<Event>, after: seq<Event>, slug: string -> string, now: int, id: string, t: int)
    requires LatestAt(before, slug, now, id, t) && |after| == |before|
    requires forall i :: 0 <= i < |after| ==> (Labels(after[i], slug, id) <==> Labels(before[i], slug, id))
    requires forall i :: 0 <= i < |after| ==>
      after[i].occurredAt == before[i].occurredAt && after[i].createdAt == before[i].createdAt
    ensures LatestAt(after, slug, now, id, t)
  {
    assert forall i, at :: 0 <= i < |after| ==> (PractisedAt(after[i], now, at) <==> PractisedAt(before[i], now, at));
    if t != 0 {
      var i :| 0 <= i < |before| && Labels(before[i], slug, id) && PractisedAt(before[i], now, t);
      assert Labels(after[i], slug, id) && PractisedAt(after[i], now, t);
    }
  }

  lemma LatestNow(
    before: seq<Event>, after: seq<Event>, slug: string -> string, now: int, id: string, t: int, e: Event, n: nat)
    requires |after| == |before| && n < |after| && Labels(after[n], slug, id)
    requires LatestAt(before, slug, now, id, t)
      || (t == 0 && forall i :: 0 <= i < |before| ==> !Labels(before[i], slug, id))
    requires forall i :: 0 <= i < |after| && i != n ==> (Labels(after[i], slug, id) <==> Labels(before[i], slug, id))
    requires Labels(before[n], slug, id) ==> Labels(after[n], slug, id)
    requires forall i :: 0 <= i < |after| ==>
      after[i].occurredAt == before[i].occurredAt && after[i].createdAt == before[i].createdAt
    requires after[n].occurredAt == e.occurredAt && after[n].createdAt == e.createdAt
    ensures LatestAt(after, slug, now, id, if PracticedAt(e, now) > t then PracticedAt(e, now) else t)
  {
    assert forall i, at :: 0 <= i < |after| ==> (PractisedAt(after[i], now, at) <==> PractisedAt(before[i], now, at));
    assert forall at :: PractisedAt(after[n], now, at) <==> at == PracticedAt(e, now);
    if t != 0 {
      var i :| 0 <= i < |before| && Labels(before[i], slug, id) && PractisedAt(before[i], now, t);
      assert Labels(after[i], slug, id) && PractisedAt(after[i], now, t);
    }
  }

  lemma LabelsMore(e: Event, front: seq<string>, name: string, slug: string -> string, id: string)
    ensures Labels(e.(skills := front + [name]), slug, id) <==>
      Labels(e.(skills := front), slug, id) || slug(name) == id
  {
    var all := front + [name];
    if k :| 0 <= k < |front| && slug(front[k]) == id {
      assert all[k] == front[k];
    }
    assert all[|front|] == name;
  }

  lemma {:induction false} LabelsTimed(
    stats: Stats, events: seq<Event>, e: Event, names: seq<string>, slug: string -> string, now: int)
    requires SaysTimes(stats, events + [e.(skills := [])], slug, now)
    ensures SaysTimes(WithLabels(stats, slug, names, e, now), events + [e.(skills := names)], slug, now)
  {
    if names != [] {
      var front, name := names[..|names| - 1], names[|names| - 1];
      LabelsTimed(stats, events, e, front, slug, now);
      SplitLast(names);
      LabelTimed(WithLabels(stats, slug, front, e, now), events, e, front, name, slug, now);
    }
  }

  lemma NothingTimed(stats: Stats, events: seq<Event>, e: Event, slug: string -> string, now: int)
    requires SaysTimes(stats, events, slug, now)
    ensures SaysTimes(stats, events + [e.(skills := [])], slug, now)
  {
    var all := events + [e.(skills := [])];
    assert forall i :: 0 <= i < |events| ==> all[i] == events[i];
    forall id | id in stats ensures LatestAt(all, slug, now, id, stats[id].lastPracticed) {
      assert LatestAt(events, slug, now, id, stats[id].lastPracticed);
      var t := stats[id].lastPracticed;
      if t != 0 {
        var i :| 0 <= i < |events| && Labels(events[i], slug, id) && PractisedAt(events[i], now, t);
        assert all[i] == events[i];
      }
    }
  }

  lemma {:induction false} StatsTimed(events: seq<Event>, slug: string -> string, now: int)
    ensures SaysTimes(StatsOf(events, slug, now), events, slug, now)
  {
    if events != [] {
      var front, e := events[..|events| - 1], events[|events| - 1];
      StatsTimed(front, slug, now);
      NothingTimed(StatsOf(front, slug, now), front, e, slug, now);
      LabelsTimed(StatsOf(front, slug, now), front, e, e.skills, slug, now);
      SplitLast(events);
      assert e.(skills := e.skills) == e;
    }
  }

  /** One skill for each id labelled in the log, most tried first and then by name; each says of the log what
      Describes says. */
  ghost predicate SkillsMean(skills: seq<Skill>, events: seq<Event>, slug: string -> string, now: int) {
    && (forall i :: 0 <= i < |skills| ==> Describes(skills[i], events, slug, now))
    && (forall id :: Tries(events, slug, id) > 0 ==> exists i :: 0 <= i < |skills| && skills[i].id == id)
    && (forall i, j :: 0 <= i < j < |skills| ==> skills[i].id != skills[j].id)
    && (forall i, j :: 0 <= i < j < |skills| ==>
          || Tries(events, slug, skills[i].id) > Tries(events, slug, skills[j].id)
          || (&& Tries(events, slug, skills[i].id) == Tries(events, slug, skills[j].id)
              && Less(skills[i].name, skills[j].name)))
  }

  lemma SkillOfLog(stats: seq<Stat>, events: seq<Event>, slug: string -> string, now: int, i: nat)
    requires Lists(stats, StatsOf(events, slug, now), StatRank()) && i < |stats|
    ensures var k := Skills(stats, slug)[i];
      Describes(k, events, slug, now) && k.name == stats[i].name && stats[i].attempts == Tries(events, slug, k.id)
  {
    var m, id := StatsOf(events, slug, now), slug(stats[i].name);
    StatsKeyed(events, slug, now);
    assert stats[i] in m.Values;
    assert id in m && m[id] == stats[i];
    StatsCount(events, slug, now, id);
    StatSays(events, slug, now, id);
  }

  lemma StatSays(events: seq<Event>, slug: string -> string, now: int, id: string)
    requires id in StatsOf(events, slug, now)
    ensures FirstLabel(LogLabels(events), slug, id, StatsOf(events, slug, now)[id].name)
    ensures LatestAt(events, slug, now, id, StatsOf(events, slug, now)[id].lastPracticed)
  {
    StatsNamed(events, slug, now);
    StatsTimed(events, slug, now);
  }

  lemma SkillsOfLog(stats: seq<Stat>, events: seq<Event>, slug: string -> string, now: int)
    requires Lists(stats, StatsOf(events, slug, now), StatRank())
    ensures SkillsMean(Skills(stats, slug), events, slug, now)
  {
    var m, skills := StatsOf(events, slug, now), Skills(stats, slug);
    forall i | 0 <= i < |stats|
      ensures Describes(skills[i], events, slug, now)
      ensures skills[i].name == stats[i].name && stats[i].attempts == Tries(events, slug, skills[i].id)
    {
      SkillOfLog(stats, events, slug, now, i);
    }
    StatsKeyed(events, slug, now);
    forall id | Tries(events, slug, id) > 0 ensures exists i :: 0 <= i < |skills| && skills[i].id == id {
      StatsCount(events, slug, now, id);
      assert m[id] in stats;
      var i :| 0 <= i < |stats| && stats[i] == m[id];
      assert skills[i].id == id;
    }
    forall i, j | 0 <= i < j < |skills| ensures skills[i].id != skills[j].id {
      assert stats[i] in m.Values && stats[j] in m.Values;
      BeforeStrictTotal(StatRank()(stats[i]), StatRank()(stats[j]), StatRank()(stats[i]));
    }
  }

  // ---- strengths and edges ----

  /** The names are those of the first five skills whose id satisfies p, in order. */
  ghost predicate FirstFive(skills: seq<Skill>, names: seq<string>, p: string -> bool) {
    exists places: seq<nat> :: PlacesOf(skills, names, p, places)
  }

  ghost predicate PlacesOf(skills: seq<Skill>, names: seq<string>, p: string -> bool, places: seq<nat>) {
    && |places| == |names| && |names| <= 5
    && (forall k :: 0 <= k < |places| ==>
          places[k] < |skills| && p(skills[places[k]].id) && skills[places[k]].name == names[k])
    && (forall k, l :: 0 <= k < l < |places| ==> places[k] < places[l])
    && (forall i :: 0 <= i < |skills| && p(skills[i].id) && i !in places ==> |places| == 5 && i > places[4])
  }

  function Winning(events: seq<Event>, slug: string -> string): string -> bool {
    (id: string) => Wins(events, slug, id) > Losses(events, slug, id)
  }

  function Losing(events: seq<Event>, slug: string -> string): string -> bool {
    (id: string) => Losses(events, slug, id) > Wins(events, slug, id)
  }

  /** Where the picked names come from. */
  function Places(stats: seq<Stat>, p: Stat -> bool): seq<nat> {
    if stats == [] then []
    else
      var before, last := Places(stats[..|stats| - 1], p), |stats| - 1;
      if p(stats[last]) then before + [last] else before
  }

  lemma {:induction false} PlacesPicked(stats: seq<Stat>, p: Stat -> bool)
    ensures var places := Places(stats, p);
      && |places| == |Picked(stats, p)|
      && forall k :: 0 <= k < |places| ==>
           places[k] < |stats| && p(stats[places[k]]) && stats[places[k]].name == Picked(stats, p)[k]
  {
    if stats != [] {
      PlacesPicked(stats[..|stats| - 1], p);
    }
  }

  lemma {:induction false} PlacesRise(stats: seq<Stat>, p: Stat -> bool)
    ensures forall k :: 0 <= k < |Places(stats, p)| ==> Places(stats, p)[k] < |stats|
    ensures forall k, l :: 0 <= k < l < |Places(stats, p)| ==> Places(stats, p)[k] < Places(stats, p)[l]
  {
    if stats != [] {
      PlacesRise(stats[..|stats| - 1], p);
    }
  }

  lemma {:induction false} PlacesAll(stats: seq<Stat>, p: Stat -> bool, i: nat)
    requires i < |stats| && p(stats[i])
    ensures i in Places(stats, p)
  {
    if i < |stats| - 1 {
      PlacesAll(stats[..|stats| - 1], p, i);
    }
  }

  lemma {:induction false} PickedFive(stats: seq<Stat>, p: Stat -> bool, skills: seq<Skill>, q: string -> bool)
    requires |skills| == |stats|
    requires forall i :: 0 <= i < |stats| ==> skills[i].name == stats[i].name && (p(stats[i]) <==> q(skills[i].id))
    ensures FirstFive(skills, FirstOf(Picked(stats, p), 5), q)
  {
    var all := Places(stats, p);
    var places := FirstOf(all, 5);
    PlacesPicked(stats, p);
    PlacesRise(stats, p);
    assert forall k :: 0 <= k < |places| ==> places[k] == all[k];
    forall i | 0 <= i < |skills| && q(skills[i].id) && i !in places ensures |places| == 5 && i > places[4] {
      PlacesAll(stats, p, i);
      var k :| 0 <= k < |all| && all[k] == i;
    }
    assert PlacesOf(skills, FirstOf(Picked(stats, p), 5), q, places);
  }

  /** Strengths are the first five skills won more often than lost, edges the first five lost more often. */
  lemma LabelsMean(stats: seq<Stat>, events: seq<Event>, slug: string -> string, now: int)
    requires Lists(stats, StatsOf(events, slug, now), StatRank())
    ensures FirstFive(Skills(stats, slug), Strengths(stats), Winning(events, slug))
    ensures FirstFive(Skills(stats, slug), Edges(stats), Losing(events, slug))
  {
    var skills := Skills(stats, slug);
    forall i | 0 <= i < |stats|
      ensures Strong(stats[i]) <==> Winning(events, slug)(skills[i].id)
      ensures Weak(stats[i]) <==> Losing(events, slug)(skills[i].id)
    {
      StatOf(stats, events, slug, now, i);
    }
    PickedFive(stats, Strong, skills, Winning(events, slug));
    PickedFive(stats, Weak, skills, Losing(events, slug));
  }

  /** The whole summary, said of the log: the skills, the first five that were won more often than lost as
      strengths, the first five that were lost more often as edges, the digest of these, and the times. */
  lemma SummaryMeans(current: Profile, events: seq<Event>, slug: string -> string, now: int, next: Profile)
    requires Summarizes(current, events, slug, now, next)
    ensures SkillsMean(next.skills, events, slug, now)
    ensures FirstFive(next.skills, next.strengths, Winning(events, slug))
    ensures FirstFive(next.skills, next.edges, Losing(events, slug))
    ensures DigestMeans(next, |events|)
    ensures next.updatedAt == now && next.nextReviewAt == now + 24 * 60 * 60 && next.other == current.other
  {
    var stats :| Lists(stats, StatsOf(events, slug, now), StatRank())
      && next == Derived(current, events, slug, now, stats, next.notes);
    SkillsOfLog(stats, events, slug, now);
    LabelsMean(stats, events, slug, now);
    PickedEvery(stats, s => true);
  }

  /** The digest counts the events and names the first three skills, the strengths and the edges. */
  predicate DigestMeans(next: Profile, events: nat) {
    && next.digest.events == events
    && next.digest.strengths == next.strengths && next.digest.edges == next.edges
    && |next.digest.focus| == (if |next.skills| < 3 then |next.skills| else 3)
    && forall i :: 0 <= i < |next.digest.focus| ==> next.digest.focus[i] == next.skills[i].name
  }

  lemma StatOf(stats: seq<Stat>, events: seq<Event>, slug: string -> string, now: int, i: nat)
    requires Lists(stats, StatsOf(events, slug, now), StatRank()) && i < |stats|
    ensures stats[i].positive == Wins(events, slug, slug(stats[i].name))
    ensures stats[i].negative == Losses(events, slug, slug(stats[i].name))
  {
    StatsKeyed(events, slug, now);
    assert stats[i] in StatsOf(events, slug, now).Values;
    StatsCount(events, slug, now, slug(stats[i].name));
  }

  function NamesOf(stats: seq<Stat>): seq<string> {
    seq(|stats|, i requires 0 <= i < |stats| => stats[i].name)
  }

  lemma {:induction false} PickedEvery(stats: seq<Stat>, p: Stat -> bool)
    requires forall s :: p(s)
    ensures Picked(stats, p) == NamesOf(stats)
  {
    if stats != [] {
      PickedEvery(stats[..|stats| - 1], p);
    }
  }

  // ---- notes ----

  /** The note is an event's: its id is the event's key with a prefix, its fields are the event's, and no later
      event yields a note with that id. */
  predicate FromEvent(n: Note, events: seq<Event>, i: int) {
    && 0 <= i < |events| && events[i].draft.Some?
    && var d := events[i].draft.value;
    && n.id == "note_" + d.key && n.problemID == d.problemID && n.title == d.title && n.summary == d.summary
    && n.createdAt == d.createdAt && n.tags == d.tags && n.action == d.action
    && NoneYields(n.id, events[i + 1..])
  }

  predicate NoneYields(id: string, events: seq<Event>) {
    forall i :: 0 <= i < |events| && events[i].draft.Some? ==> "note_" + events[i].draft.value.key != id
  }

  /** The note is the last one with its id among the notes there were, and no event yields that id. */
  predicate FromBefore(n: Note, notes: seq<Note>, events: seq<Event>, k: int) {
    && 0 <= k < |notes| && notes[k] == n && n.id != "" && NoneYields(n.id, events)
    && forall j :: k < j < |notes| ==> notes[j].id != n.id
  }

  ghost predicate Origin(n: Note, notes: seq<Note>, events: seq<Event>) {
    (exists i :: FromEvent(n, events, i)) || (exists k :: FromBefore(n, notes, events, k))
  }

  lemma {:induction false} IndexedOrigin(notes: seq<Note>, id: string)
    requires id in Indexed(notes)
    ensures Indexed(notes)[id].id == id && Origin(Indexed(notes)[id], notes, [])
  {
    var front, n := notes[..|notes| - 1], notes[|notes| - 1];
    if n.id != "" && n.id == id {
      assert FromBefore(n, notes, [], |front|);
    } else {
      IndexedOrigin(front, id);
      var k :| FromBefore(Indexed(front)[id], front, [], k);
      assert FromBefore(Indexed(front)[id], notes, [], k);
    }
  }

  lemma {:induction false} NoteOrigin(notes: seq<Note>, events: seq<Event>, id: string)
    requires id in WithEvents(Indexed(notes), events)
    ensures WithEvents(Indexed(notes), events)[id].id == id
    ensures Origin(WithEvents(Indexed(notes), events)[id], notes, events)
  {
    if events == [] {
      IndexedOrigin(notes, id);
    } else {
      var front, e := events[..|events| - 1], events[|events| - 1];
      if e.draft.Some? && "note_" + e.draft.value.key == id {
        assert FromEvent(NoteOf(e.draft.value), events, |front|);
      } else {
        NoteOrigin(notes, front, id);
        OriginStays(WithEvents(Indexed(notes), front)[id], notes, front, e);
        SplitLast(events);
      }
    }
  }

  lemma OriginStays(n: Note, notes: seq<Note>, front: seq<Event>, e: Event)
    requires Origin(n, notes, front) && NoneYields(n.id, [e])
    ensures Origin(n, notes, front + [e])
  {
    var all := front + [e];
    assert [e][0] == e;
    if i :| FromEvent(n, front, i) {
      assert all[i + 1..] == front[i + 1..] + [e];
      assert FromEvent(n, all, i);
    } else {
      var k :| FromBefore(n, notes, front, k);
      assert FromBefore(n, notes, all, k);
    }
  }

  /** The notes of a summary: each the latest with its id, from an event or from before; newest first and by id
      among equals; at most 20; and a note of the log or from before that is not listed has 20 listed ones
      before it. */
  lemma NotesMean(current: Profile, events: seq<Event>, slug: string -> string, now: int, next: Profile)
    requires Summarizes(current, events, slug, now, next)
    ensures forall n :: n in next.notes ==> Origin(n, current.notes, events)
    ensures NewestFirst(next.notes) && |next.notes| <= 20
    ensures forall n :: Origin(n, current.notes, events) && n !in next.notes ==>
      |next.notes| == 20 && forall m :: m in next.notes ==> Newer(m, n)
  {
    var m := WithEvents(Indexed(current.notes), events);
    NotesKeyed(current.notes, events);
    forall n | n in next.notes ensures Origin(n, current.notes, events) {
      assert n in m.Values;
      NoteOrigin(current.notes, events, n.id);
    }
    forall n | Origin(n, current.notes, events) ensures n in m.Values {
      OriginHeld(current.notes, events, n);
    }
  }

  predicate Newer(a: Note, b: Note) {
    a.createdAt > b.createdAt || (a.createdAt == b.createdAt && Less(a.id, b.id))
  }

  predicate NewestFirst(notes: seq<Note>) {
    forall i, j :: 0 <= i < j < |notes| ==> Newer(notes[i], notes[j])
  }

  /** Two notes with one id and an origin are the same. */
  lemma OriginHeld(notes: seq<Note>, events: seq<Event>, n: Note)
    requires Origin(n, notes, events)
    ensures n in WithEvents(Indexed(notes), events).Values
  {
    var m := WithEvents(Indexed(notes), events);
    OriginKnown(notes, events, n);
    assert n.id in m && m[n.id] == n;
  }

  lemma {:induction false} OriginKnown(notes: seq<Note>, events: seq<Event>, n: Note)
    requires Origin(n, notes, events)
    ensures n.id in WithEvents(Indexed(notes), events) && WithEvents(Indexed(notes), events)[n.id] == n
  {
    if events == [] {
      var k :| FromBefore(n, notes, events, k);
      IndexedKnown(notes, n, k);
    } else {
      var front, e := events[..|events| - 1], events[|events| - 1];
      if e.draft.Some? && "note_" + e.draft.value.key == n.id {
        LastYields(notes, events, n);
      } else {
        OriginBefore(notes, events, n);
        OriginKnown(notes, front, n);
      }
    }
  }

  lemma LastYields(notes: seq<Note>, events: seq<Event>, n: Note)
    requires Origin(n, notes, events) && events != []
    requires var e := events[|events| - 1]; e.draft.Some? && "note_" + e.draft.value.key == n.id
    ensures n == NoteOf(events[|events| - 1].draft.value)
  {
  }

  lemma OriginBefore(notes: seq<Note>, events: seq<Event>, n: Note)
    requires Origin(n, notes, events) && events != []
    requires var e := events[|events| - 1]; e.draft.Some? ==> "note_" + e.draft.value.key != n.id
    ensures Origin(n, notes, events[..|events| - 1])
  {
    var front := events[..|events| - 1];
    if i :| FromEvent(n, events, i) {
      assert i < |front| && events[i + 1..][..|front| - i - 1] == front[i + 1..];
      assert FromEvent(n, front, i);
    } else {
      var k :| FromBefore(n, notes, events, k);
      assert FromBefore(n, notes, front, k);
    }
  }

  lemma {:induction false} IndexedKnown(notes: seq<Note>, n: Note, k: int)
    requires FromBefore(n, notes, [], k)
    ensures n.id in Indexed(notes) && Indexed(notes)[n.id] == n
  {
    if k < |notes| - 1 {
      IndexedKnown(notes[..|notes| - 1], n, k);
    }
  }
}
