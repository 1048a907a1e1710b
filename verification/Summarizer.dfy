/** Deterministic profile derivation: Summarize folds the event log into statistics and notes held in
    maps, then sorts and truncates. Map iteration has no order in the original; here every iteration
    picks an arbitrary key, and the result is still determined. */
module Summarizer {
  import opened Notes
  import opened Options
  import opened Ranking
  import opened Sequences
  import opened Text

  datatype Skill = Skill(id: string, name: string, level: int, confidence: int, trend: int, lastPracticed: int)

  /** The paragraph of the original is a rendering of these four values. */
  datatype Digest = Digest(events: nat, focus: seq<string>, strengths: seq<string>, edges: seq<string>)

  /** `other` is every field Summarize leaves alone (version and provenance). */
  datatype Profile = Profile(
    updatedAt: int, nextReviewAt: int, skills: seq<Skill>, strengths: seq<string>, edges: seq<string>,
    notes: seq<Note>, digest: Digest, other: string)

  /** A note an event yields; its id is prefixed, so it is never empty. */
  datatype Draft = Draft(
    key: string, problemID: string, title: string, summary: string, createdAt: int, tags: seq<string>, action: string)

  /** A decoded event: the skill labels and the outcome inferred from it, its times (0 is the unset
      time), and the note it yields, if it names a problem. */
  datatype Event = Event(skills: seq<string>, outcome: int, occurredAt: int, createdAt: int, draft: Option<Draft>)

  function NoteOf(d: Draft): Note {
    Note("note_" + d.key, d.problemID, d.title, d.summary, d.createdAt, d.tags, d.action)
  }

  datatype Stat = Stat(name: string, attempts: nat, positive: nat, negative: nat, lastPracticed: int)

  const DAY: int := 24 * 3600
  const MAX_LABELS: nat := 5
  const MAX_FOCUS: nat := 3

  type Stats = map<string, Stat>
  type NoteMap = map<string, Note>

  function StatRank(): Stat -> Rank {
    (s: Stat) => Rank(s.attempts, s.name)
  }

  // ---- the fold over events ----

  function PracticedAt(e: Event, now: int): int {
    if e.occurredAt != 0 then e.occurredAt else if e.createdAt != 0 then e.createdAt else now
  }

  function Observed(s: Stat, e: Event, now: int): Stat {
    s.(attempts := s.attempts + 1,
       positive := if e.outcome > 0 then s.positive + 1 else s.positive,
       negative := if e.outcome < 0 then s.negative + 1 else s.negative,
       lastPracticed := if PracticedAt(e, now) > s.lastPracticed then PracticedAt(e, now) else s.lastPracticed)
  }

  /** One label of one event. `slug` is the original's label-to-id function; the theorems hold for any. */
  function WithLabel(stats: Stats, slug: string -> string, name: string, e: Event, now: int): Stats {
    var id := slug(name);
    var s := if id in stats then stats[id] else Stat(name, 0, 0, 0, 0);
    stats[id := Observed(s, e, now)]
  }

  function WithLabels(stats: Stats, slug: string -> string, names: seq<string>, e: Event, now: int): Stats {
    if names == [] then stats
    else WithLabel(WithLabels(stats, slug, names[..|names| - 1], e, now), slug, names[|names| - 1], e, now)
  }

  function StatsOf(events: seq<Event>, slug: string -> string, now: int): Stats {
    if events == [] then map[]
    else
      var e := events[|events| - 1];
      WithLabels(StatsOf(events[..|events| - 1], slug, now), slug, e.skills, e, now)
  }

  function WithNote(notes: NoteMap, e: Event): NoteMap {
    if e.draft.Some? then notes[NoteOf(e.draft.value).id := NoteOf(e.draft.value)] else notes
  }

  function WithEvents(notes: NoteMap, events: seq<Event>): NoteMap {
    if events == [] then notes
    else WithNote(WithEvents(notes, events[..|events| - 1]), events[|events| - 1])
  }

  /** existingNotes: notes without an id are dropped, and of two with one id the later counts. */
  function Indexed(notes: seq<Note>): NoteMap {
    if notes == [] then map[]
    else
      var rest, n := Indexed(notes[..|notes| - 1]), notes[|notes| - 1];
      if n.id == "" then rest else rest[n.id := n]
  }

  // ---- listings of maps ----

  /** `list` holds exactly the map's values, newest (or most attempted) first. */
  ghost predicate Lists<T(!new)>(list: seq<T>, m: map<string, T>, rank: T -> Rank) {
    && Ranked(list, rank)
    && (forall x :: x in list <==> x in m.Values)
  }

  /** `list` holds the newest 20 notes of the map in rank order: whatever is left out ranks behind all 20. */
  ghost predicate Top(list: seq<Note>, m: NoteMap) {
    && Ranked(list, NoteRank())
    && |list| <= MAX_NOTES
    && (forall x :: x in list ==> x in m.Values)
    && (forall x :: x in m.Values && x !in list ==>
          |list| == MAX_NOTES && forall y :: y in list ==> Before(NoteRank()(y), NoteRank()(x)))
  }

  /** Every map value carries its key, so a map has at most one value per rank. */
  predicate KeyedNotes(m: NoteMap) {
    forall id :: id in m ==> m[id].id == id
  }

  predicate KeyedStats(m: Stats, slug: string -> string) {
    forall id :: id in m ==> slug(m[id].name) == id
  }

  /** The result of Summarize, as a relation between its inputs and its output that mentions no
      iteration order and no sorting algorithm. */
  ghost predicate Summarizes(current: Profile, events: seq<Event>, slug: string -> string, now: int, next: Profile) {
    && Top(next.notes, WithEvents(Indexed(current.notes), events))
    && exists stats :: Lists(stats, StatsOf(events, slug, now), StatRank())
         && next == Derived(current, events, slug, now, stats, next.notes)
  }

  function Derived(
    current: Profile, events: seq<Event>, slug: string -> string, now: int, stats: seq<Stat>, notes: seq<Note>): Profile
  {
    current.(
      updatedAt := now, nextReviewAt := now + DAY,
      skills := Skills(stats, slug), strengths := Strengths(stats), edges := Edges(stats), notes := notes,
      digest := Digest(|events|, Names(stats, MAX_FOCUS), Strengths(stats), Edges(stats)))
  }

  function Clamp(value: int, low: int, high: int): int {
    if value < low then low else if value > high then high else value
  }

  function Skills(stats: seq<Stat>, slug: string -> string): seq<Skill> {
    seq(|stats|, i requires 0 <= i < |stats| =>
      var s := stats[i];
      Skill(slug(s.name), s.name, Clamp(2 + s.positive - s.negative, 1, 5), Clamp(25 + s.attempts * 15, 25, 95),
            if s.positive > s.negative then 1 else if s.negative > s.positive then -1 else 0, s.lastPracticed))
  }

  predicate Strong(s: Stat) { s.positive > s.negative }
  predicate Weak(s: Stat) { s.negative > s.positive }

  /** The names of the statistics that satisfy `p`, in order. */
  function Picked(stats: seq<Stat>, p: Stat -> bool): seq<string> {
    if stats == [] then []
    else
      var rest, s := Picked(stats[..|stats| - 1], p), stats[|stats| - 1];
      if p(s) then rest + [s.name] else rest
  }

  function Strengths(stats: seq<Stat>): seq<string> {
    FirstOf(Picked(stats, Strong), MAX_LABELS)
  }

  function Edges(stats: seq<Stat>): seq<string> {
    FirstOf(Picked(stats, Weak), MAX_LABELS)
  }

  function Names(stats: seq<Stat>, n: nat): seq<string> {
    FirstOf(Picked(stats, s => true), n)
  }

  // ---- the method ----

  method Summarize(current: Profile, events: seq<Event>, slug: string -> string, now: int) returns (next: Profile)
    ensures Summarizes(current, events, slug, now, next)
  {
    var statsByID: Stats := map[];
    var notesByID := ExistingNotes(current.notes);
    for n := 0 to |events|
      invariant statsByID == StatsOf(events[..n], slug, now)
      invariant notesByID == WithEvents(Indexed(current.notes), events[..n])
    {
      var e := events[n];
      assert events[..n + 1][..n] == events[..n];
      statsByID := CountSkills(statsByID, slug, e, now);
      if e.draft.Some? {
        var note := NoteOf(e.draft.value);
        notesByID := notesByID[note.id := note];
      }
    }
    assert events[..|events|] == events;
    StatsKeyed(events, slug, now);
    NotesKeyed(current.notes, events);
    var stats := SortedStats(statsByID, slug);
    var notes := SortedNotes(notesByID);
    var strengths := PickFive(stats, Strong);
    var edges := PickFive(stats, Weak);
    next := current.(
      updatedAt := now, nextReviewAt := now + DAY, skills := Skills(stats, slug), strengths := strengths,
      edges := edges, notes := notes, digest := Digest(|events|, Names(stats, MAX_FOCUS), strengths, edges));
  }

  method ExistingNotes(notes: seq<Note>) returns (indexed: NoteMap)
    ensures indexed == Indexed(notes)
  {
    indexed := map[];
    for n := 0 to |notes|
      invariant indexed == Indexed(notes[..n])
    {
      assert notes[..n + 1][..n] == notes[..n];
      if notes[n].id != "" {
        indexed := indexed[notes[n].id := notes[n]];
      }
    }
    assert notes[..|notes|] == notes;
  }

  method CountSkills(before: Stats, slug: string -> string, e: Event, now: int) returns (stats: Stats)
    ensures stats == WithLabels(before, slug, e.skills, e, now)
  {
    stats := before;
    for k := 0 to |e.skills|
      invariant stats == WithLabels(before, slug, e.skills[..k], e, now)
    {
      assert e.skills[..k + 1][..k] == e.skills[..k];
      stats := WithLabel(stats, slug, e.skills[k], e, now);
    }
    assert e.skills[..|e.skills|] == e.skills;
  }

  /** Go's range over a map: every value once, in no particular order. */
  method Values<T(==)>(m: map<string, T>) returns (values: seq<T>, ghost keys: seq<string>)
    ensures |keys| == |values| && (forall i :: 0 <= i < |keys| ==> keys[i] in m && values[i] == m[keys[i]])
    ensures forall i, j :: 0 <= i < j < |keys| ==> keys[i] != keys[j]
    ensures forall key :: key in m ==> key in keys
  {
    values, keys := [], [];
    var rest := m.Keys;
    while rest != {}
      invariant rest <= m.Keys
      invariant |keys| == |values| && (forall i :: 0 <= i < |keys| ==> keys[i] in m && values[i] == m[keys[i]])
      invariant forall i :: 0 <= i < |keys| ==> keys[i] !in rest
      invariant forall i, j :: 0 <= i < j < |keys| ==> keys[i] != keys[j]
      invariant forall key :: key in m && key !in rest ==> key in keys
      decreases rest
    {
      var key :| key in rest;
      values, keys, rest := values + [m[key]], keys + [key], rest - {key};
    }
  }

  method SortedStats(m: Stats, slug: string -> string) returns (stats: seq<Stat>)
    requires KeyedStats(m, slug)
    ensures Lists(stats, m, StatRank())
  {
    var values, keys := Values(m);
    stats := Sort(values, StatRank());
    forall i, j | 0 <= i < j < |values| ensures StatRank()(values[i]) != StatRank()(values[j]) {
      assert slug(values[i].name) == keys[i] && slug(values[j].name) == keys[j];
    }
    SortedLists(m, values, keys, stats, StatRank());
  }

  method SortedNotes(m: NoteMap) returns (notes: seq<Note>)
    requires KeyedNotes(m)
    ensures Top(notes, m)
  {
    var values, keys := Values(m);
    notes := Sort(values, NoteRank());
    forall i, j | 0 <= i < j < |values| ensures NoteRank()(values[i]) != NoteRank()(values[j]) {
      assert values[i].id == keys[i] && values[j].id == keys[j];
    }
    SortedLists(m, values, keys, notes, NoteRank());
    ListsTop(notes, m);
    if |notes| > MAX_NOTES {
      notes := notes[..MAX_NOTES];
    }
  }

  /** The names of the first five statistics that satisfy `p`. */
  method PickFive(stats: seq<Stat>, p: Stat -> bool) returns (names: seq<string>)
    ensures names == FirstOf(Picked(stats, p), MAX_LABELS)
  {
    names := [];
    for i := 0 to |stats|
      invariant names == Picked(stats[..i], p) && |names| < MAX_LABELS
    {
      assert stats[..i + 1][..i] == stats[..i];
      if p(stats[i]) {
        names := names + [stats[i].name];
      }
      if |names| == MAX_LABELS {
        PickedPrefix(stats, i + 1, p);
        return;
      }
    }
    assert stats[..|stats|] == stats;
  }

  lemma {:induction false} PickedPrefix(stats: seq<Stat>, n: nat, p: Stat -> bool)
    requires n <= |stats|
    ensures Picked(stats[..n], p) <= Picked(stats, p)
  {
    if n == |stats| {
      assert stats[..n] == stats;
    } else {
      var front := stats[..|stats| - 1];
      assert front[..n] == stats[..n];
      PickedPrefix(front, n, p);
    }
  }

  // ---- listings are unique ----

  /** A ranked arrangement of the values of a map, taken key by key, lists the map. */
  lemma SortedLists<T(!new)>(m: map<string, T>, values: seq<T>, keys: seq<string>, sorted: seq<T>, rank: T -> Rank)
    requires |keys| == |values| && (forall i :: 0 <= i < |keys| ==> keys[i] in m && values[i] == m[keys[i]])
    requires forall key :: key in m ==> key in keys
    requires forall i, j :: 0 <= i < j < |values| ==> rank(values[i]) != rank(values[j])
    requires WeaklyRanked(sorted, rank) && multiset(sorted) == multiset(values)
    ensures Lists(sorted, m, rank)
  {
    forall x ensures x in sorted <==> x in m.Values {
      assert x in sorted <==> x in multiset(values);
      if x in m.Values {
        var key :| key in m && m[key] == x;
        var i :| 0 <= i < |keys| && keys[i] == key;
        assert values[i] == x;
      }
    }
    forall i, j | 0 <= i < j < |sorted| ensures Before(rank(sorted[i]), rank(sorted[j])) {
      SameRankOnce(values, sorted, rank, i, j);
      BeforeStrictTotal(rank(sorted[i]), rank(sorted[j]), rank(sorted[i]));
    }
  }

  /** Rearranging elements of pairwise different rank leaves ranks pairwise different. */
  lemma SameRankOnce<T(!new)>(values: seq<T>, sorted: seq<T>, rank: T -> Rank, i: nat, j: nat)
    requires multiset(sorted) == multiset(values)
    requires forall a, b :: 0 <= a < b < |values| ==> rank(values[a]) != rank(values[b])
    requires i < j < |sorted|
    ensures rank(sorted[i]) != rank(sorted[j])
  {
    assert sorted[i] in multiset(values) && sorted[j] in multiset(values);
    var a :| 0 <= a < |values| && values[a] == sorted[i];
    var b :| 0 <= b < |values| && values[b] == sorted[j];
    CountOnce(values, rank, a);
    CountBoth(sorted, i, j);
  }

  lemma CountBoth<T>(s: seq<T>, i: nat, j: nat)
    requires i < j < |s|
    ensures s[i] == s[j] ==> multiset(s)[s[i]] >= 2
  {
    assert s == s[..i] + [s[i]] + s[i + 1..j] + [s[j]] + s[j + 1..];
  }

  lemma CountOnce<T>(values: seq<T>, rank: T -> Rank, a: nat)
    requires forall i, j :: 0 <= i < j < |values| ==> rank(values[i]) != rank(values[j])
    requires a < |values|
    ensures multiset(values)[values[a]] == 1
  {
    assert values == values[..a] + [values[a]] + values[a + 1..];
    assert values[a] !in values[..a] && values[a] !in values[a + 1..];
  }

  lemma ListsTop(full: seq<Note>, m: NoteMap)
    requires Lists(full, m, NoteRank())
    ensures Top(FirstOf(full, MAX_NOTES), m)
  {
    var list := FirstOf(full, MAX_NOTES);
    forall x | x in m.Values && x !in list
      ensures |list| == MAX_NOTES && forall y :: y in list ==> Before(NoteRank()(y), NoteRank()(x))
    {
      assert x in full;
      var i :| 0 <= i < |full| && full[i] == x;
      assert forall k :: 0 <= k < |list| ==> list[k] == full[k];
    }
  }

  /** The set of a ranked list's elements is as large as the list. */
  lemma {:induction false} RankedSize<T(!new)>(s: seq<T>, rank: T -> Rank)
    requires Ranked(s, rank)
    ensures |set x | x in s| == |s|
  {
    if s != [] {
      RankedDistinct(s, rank);
      RankedSize(s[1..], rank);
      assert (set x | x in s) == (set x | x in s[1..]) + {s[0]};
    }
  }

  /** The newest 20 notes of a map are determined. */
  lemma TopUnique(a: seq<Note>, b: seq<Note>, m: NoteMap)
    requires Top(a, m) && Top(b, m)
    ensures a == b
  {
    forall x ensures x in a <==> x in b {
      if x in a && x !in b { TopContains(a, b, m, x); }
      if x in b && x !in a { TopContains(b, a, m, x); }
    }
    RankedUnique(a, b, NoteRank());
  }

  lemma TopContains(a: seq<Note>, b: seq<Note>, m: NoteMap, x: Note)
    requires Top(a, m) && Top(b, m) && x in a
    ensures x in b
  {
    if x !in b {
      var sa, sb := set y | y in a, set y | y in b;
      RankedSize(a, NoteRank());
      RankedSize(b, NoteRank());
      if sb <= sa - {x} {
        SubsetSize(sb, sa - {x});
      }
      var y :| y in sb && y !in sa - {x};
      BeforeStrictTotal(NoteRank()(x), NoteRank()(y), NoteRank()(x));
    }
  }

  lemma {:induction false} SubsetSize<T>(a: set<T>, b: set<T>)
    requires a <= b
    ensures |a| <= |b|
    decreases a
  {
    if x :| x in a {
      SubsetSize(a - {x}, b - {x});
    }
  }

  // ---- maps carry their keys ----

  lemma {:induction false} StatsKeyed(events: seq<Event>, slug: string -> string, now: int)
    ensures KeyedStats(StatsOf(events, slug, now), slug)
  {
    if events != [] {
      var e := events[|events| - 1];
      StatsKeyed(events[..|events| - 1], slug, now);
      LabelsKeyed(StatsOf(events[..|events| - 1], slug, now), slug, e.skills, e, now);
    }
  }

  lemma {:induction false} LabelsKeyed(stats: Stats, slug: string -> string, names: seq<string>, e: Event, now: int)
    requires KeyedStats(stats, slug)
    ensures KeyedStats(WithLabels(stats, slug, names, e, now), slug)
  {
    if names != [] {
      LabelsKeyed(stats, slug, names[..|names| - 1], e, now);
    }
  }

  lemma NotesKeyed(notes: seq<Note>, events: seq<Event>)
    ensures KeyedNotes(WithEvents(Indexed(notes), events))
  {
    IndexedKeyed(notes);
    EventsKeyed(Indexed(notes), events);
  }

  lemma {:induction false} IndexedKeyed(notes: seq<Note>)
    ensures KeyedNotes(Indexed(notes)) && "" !in Indexed(notes)
  {
    if notes != [] {
      IndexedKeyed(notes[..|notes| - 1]);
    }
  }

  lemma {:induction false} EventsKeyed(notes: NoteMap, events: seq<Event>)
    requires KeyedNotes(notes)
    ensures KeyedNotes(WithEvents(notes, events))
    ensures "" !in notes ==> "" !in WithEvents(notes, events)
  {
    if events != [] {
      EventsKeyed(notes, events[..|events| - 1]);
      var e := events[|events| - 1];
      if e.draft.Some? {
        assert NoteOf(e.draft.value).id != "";
      }
    }
  }

  /** A curated list with distinct, non-empty ids is indexed without loss. */
  lemma {:induction false} IndexedExact(notes: seq<Note>)
    requires forall i, j :: 0 <= i < j < |notes| ==> notes[i].id != notes[j].id
    requires forall i :: 0 <= i < |notes| ==> notes[i].id != ""
    ensures forall id :: id in Indexed(notes) ==> Indexed(notes)[id].id == id && Indexed(notes)[id] in notes
    ensures forall i :: 0 <= i < |notes| ==> notes[i].id in Indexed(notes) && Indexed(notes)[notes[i].id] == notes[i]
  {
    if notes != [] {
      var front := notes[..|notes| - 1];
      IndexedExact(front);
      assert notes == front + [notes[|notes| - 1]];
    }
  }

  // ---- the folds ----

  /** The notes of an event log override; what they leave alone stays. */
  lemma {:induction false} EventsOverride(notes: NoteMap, events: seq<Event>)
    ensures WithEvents(notes, events) == notes + WithEvents(map[], events)
  {
    if events != [] {
      EventsOverride(notes, events[..|events| - 1]);
    }
  }

  lemma {:induction false} EventsConcat(notes: NoteMap, first: seq<Event>, second: seq<Event>)
    ensures WithEvents(notes, first + second) == WithEvents(WithEvents(notes, first), second)
  {
    var all := first + second;
    if second == [] {
      assert all == first;
    } else {
      assert all[..|all| - 1] == first + second[..|second| - 1];
      EventsConcat(notes, first, second[..|second| - 1]);
    }
  }

  // ---- the promises ----

  /** Map iteration order and sorting algorithm never show: the result is a function of the inputs. */
  lemma SummaryDetermined(
    current: Profile, events: seq<Event>, slug: string -> string, now: int, a: Profile, b: Profile)
    requires Summarizes(current, events, slug, now, a) && Summarizes(current, events, slug, now, b)
    ensures a == b
  {
    var m := StatsOf(events, slug, now);
    var sa :| Lists(sa, m, StatRank()) && a == Derived(current, events, slug, now, sa, a.notes);
    var sb :| Lists(sb, m, StatRank()) && b == Derived(current, events, slug, now, sb, b.notes);
    assert forall x :: x in sa <==> x in sb;
    RankedUnique(sa, sb, StatRank());
    TopUnique(a.notes, b.notes, WithEvents(Indexed(current.notes), events));
  }

  /** No later event re-issues a note of the first refresh with an earlier creation time. Events with new
      note ids, and an event log in creation order, always satisfy it. */
  predicate NoBackdating(notes: seq<Note>, first: seq<Event>, later: seq<Event>) {
    var known := WithEvents(Indexed(notes), first);
    forall i :: 0 <= i < |later| && later[i].draft.Some? ==>
      var n := NoteOf(later[i].draft.value);
      n.id in known ==> n.createdAt >= known[n.id].createdAt
  }

  /** A refresh over part of the log followed by one over the whole log gives what one refresh over the
      whole log gives, although each keeps only 20 notes. */
  lemma IncrementalRefresh(
    current: Profile, first: seq<Event>, later: seq<Event>, slug: string -> string, t1: int, t2: int,
    early: Profile, late: Profile, direct: Profile)
    requires NoBackdating(current.notes, first, later)
    requires Summarizes(current, first, slug, t1, early)
    requires Summarizes(early, first + later, slug, t2, late)
    requires Summarizes(current, first + later, slug, t2, direct)
    ensures late == direct
  {
    forall y | y in direct.notes ensures y.id in WithEvents(map[], first + later) || y in early.notes {
      NoteSurvives(current.notes, first, later, early.notes, direct.notes, y);
    }
    ResultsAgreeIff(current, first, later, slug, t1, t2, early, late, direct);
  }

  /** The two ways agree if and only if every note of the direct result is regenerated by an event or
      survived the first refresh. */
  lemma ResultsAgreeIff(
    current: Profile, first: seq<Event>, later: seq<Event>, slug: string -> string, t1: int, t2: int,
    early: Profile, late: Profile, direct: Profile)
    requires Summarizes(current, first, slug, t1, early)
    requires Summarizes(early, first + later, slug, t2, late)
    requires Summarizes(current, first + later, slug, t2, direct)
    ensures late == direct <==>
      forall y :: y in direct.notes ==> y.id in WithEvents(map[], first + later) || y in early.notes
  {
    var all := first + later;
    var m1, m2 := WithEvents(Indexed(current.notes), first), WithEvents(Indexed(early.notes), all);
    var md := WithEvents(Indexed(current.notes), all);
    SecondWithinDirect(current.notes, first, later, early.notes);
    NotesKeyed(current.notes, all);
    NotesKeyed(early.notes, all);
    if forall y :: y in direct.notes ==> y.id in WithEvents(map[], all) || y in early.notes {
      forall y | y in direct.notes ensures y in m2.Values {
        assert y.id in md && md[y.id] == y;
        assert y.id in m2 && m2[y.id] == y;
      }
      SubmapTop(direct.notes, md, m2);
      TopUnique(late.notes, direct.notes, m2);
      SameButNotes(current, early, all, slug, t2, late, direct);
    } else {
      var y :| y in direct.notes && y.id !in WithEvents(map[], all) && y !in early.notes;
      if late == direct {
        assert y in m2.Values && m2[y.id] == y;
        EventsOverride(Indexed(early.notes), all);
        TopIndexed(m1, early.notes, current.notes, first);
      }
    }
  }

  /** At least 20 notes of the map rank before it. */
  ghost predicate Behind(m: NoteMap, y: Note) {
    |set x | x in m.Values && Before(NoteRank()(x), NoteRank()(y))| >= MAX_NOTES
  }

  /** A note is shown unless 20 others rank before it. */
  lemma ShownIff(list: seq<Note>, m: NoteMap, y: Note)
    requires Top(list, m) && y in m.Values
    ensures y in list <==> !Behind(m, y)
  {
    var before, shown := set x | x in m.Values && Before(NoteRank()(x), NoteRank()(y)), set x | x in list;
    RankedSize(list, NoteRank());
    if y in list {
      forall x | x in before ensures x in shown - {y} {
        BeforeStrictTotal(NoteRank()(x), NoteRank()(y), NoteRank()(x));
      }
      SubsetSize(before, shown - {y});
    } else {
      SubsetSize(shown, before);
    }
  }

  /** The exact condition on the inputs, for any log: the two ways agree if and only if every note no event
      regenerates that is behind 20 others after the first part is behind 20 after all of it. */
  lemma RefreshesAgreeIff(
    current: Profile, first: seq<Event>, later: seq<Event>, slug: string -> string, t1: int, t2: int,
    early: Profile, late: Profile, direct: Profile)
    requires Summarizes(current, first, slug, t1, early)
    requires Summarizes(early, first + later, slug, t2, late)
    requires Summarizes(current, first + later, slug, t2, direct)
    ensures var m1, md := WithEvents(Indexed(current.notes), first), WithEvents(Indexed(current.notes), first + later);
      late == direct <==>
      forall y :: y in m1.Values && y.id !in WithEvents(map[], first + later) && Behind(m1, y) ==> Behind(md, y)
  {
    var notes, all := current.notes, first + later;
    var m1, md := WithEvents(Indexed(notes), first), WithEvents(Indexed(notes), all);
    ResultsAgreeIff(current, first, later, slug, t1, t2, early, late, direct);
    forall y: Note | y.id !in WithEvents(map[], all)
      ensures y in m1.Values <==> y in md.Values
      ensures y in m1.Values ==> (y in early.notes <==> !Behind(m1, y)) && (y in direct.notes <==> !Behind(md, y))
    {
      if y in md.Values { Unregenerated(notes, first, later, y); }
      if y in m1.Values {
        StillThere(notes, first, later, y);
        ShownIff(early.notes, m1, y);
        ShownIff(direct.notes, md, y);
      }
    }
  }

  /** A note that no event regenerates stays as it is. */
  lemma StillThere(notes: seq<Note>, first: seq<Event>, later: seq<Event>, y: Note)
    requires y in WithEvents(Indexed(notes), first).Values
    requires y.id !in WithEvents(map[], first + later)
    ensures y in WithEvents(Indexed(notes), first + later).Values
  {
    NotesKeyed(notes, first);
    EventsOverride(Indexed(notes), first + later);
    EventsOverride(Indexed(notes), first);
    assert y.id in WithEvents(Indexed(notes), first);
    EventsConcat(map[], first, later);
    EventsOverride(WithEvents(map[], first), later);
    assert WithEvents(Indexed(notes), first + later)[y.id] == y;
  }

  /** What the first refresh keeps is indexed exactly. */
  lemma TopIndexed(m1: NoteMap, kept: seq<Note>, notes: seq<Note>, first: seq<Event>)
    requires m1 == WithEvents(Indexed(notes), first) && Top(kept, m1)
    ensures forall i, j :: 0 <= i < j < |kept| ==> kept[i].id != kept[j].id
    ensures forall x :: x in kept ==> x.id in Indexed(kept) && Indexed(kept)[x.id] == x && x.id in m1 && m1[x.id] == x
    ensures forall id :: id in Indexed(kept) ==> Indexed(kept)[id].id == id && Indexed(kept)[id] in kept
  {
    NotesKeyed(notes, first);
    IndexedKeyed(notes);
    EventsKeyed(Indexed(notes), first);
    RankedDistinct(kept, NoteRank());
    forall i | 0 <= i < |kept| ensures kept[i].id in m1 && m1[kept[i].id] == kept[i] {
      assert kept[i] in m1.Values;
    }
    IndexedExact(kept);
  }

  /** The second refresh sees a part of what the direct one sees, with the same notes under the same ids:
      all notes regenerated by events, and of the others those the first refresh kept. */
  lemma SecondWithinDirect(notes: seq<Note>, first: seq<Event>, later: seq<Event>, kept: seq<Note>)
    requires Top(kept, WithEvents(Indexed(notes), first))
    ensures var m2, md := WithEvents(Indexed(kept), first + later), WithEvents(Indexed(notes), first + later);
      && (forall id :: id in m2 ==> id in md && m2[id] == md[id])
      && (forall id :: id in WithEvents(map[], first + later) ==> id in m2)
      && (forall y :: y in kept && y.id !in WithEvents(map[], first + later) ==> y.id in m2 && m2[y.id] == y)
  {
    var w := WithEvents(map[], first + later);
    TopIndexed(WithEvents(Indexed(notes), first), kept, notes, first);
    EventsOverride(Indexed(kept), first + later);
    EventsOverride(Indexed(notes), first + later);
    EventsOverride(Indexed(notes), first);
    EventsConcat(map[], first, later);
    EventsOverride(WithEvents(map[], first), later);
    assert forall id :: id in WithEvents(map[], first) ==> id in w;
  }

  /** A top listing of a map is one of any part of it that contains the listing. */
  lemma SubmapTop(list: seq<Note>, whole: NoteMap, part: NoteMap)
    requires Top(list, whole)
    requires forall id :: id in part ==> id in whole && part[id] == whole[id]
    requires forall x :: x in list ==> x in part.Values
    ensures Top(list, part)
  {
    forall x | x in part.Values ensures x in whole.Values {
      var id :| id in part && part[id] == x;
      assert whole[id] == x;
    }
  }

  /** Without backdating, a note dropped by the first refresh stays out of the newest 20: the 20 notes
      that displaced it, or their newer versions, still rank before it. */
  lemma NoteSurvives(
    notes: seq<Note>, first: seq<Event>, later: seq<Event>, kept: seq<Note>, direct: seq<Note>, y: Note)
    requires NoBackdating(notes, first, later)
    requires Top(kept, WithEvents(Indexed(notes), first)) && Top(direct, WithEvents(Indexed(notes), first + later))
    requires y in direct
    ensures y.id in WithEvents(map[], first + later) || y in kept
  {
    var m1 := WithEvents(Indexed(notes), first);
    if y.id !in WithEvents(map[], first + later) && y !in kept {
      Unregenerated(notes, first, later, y);
      TopIndexed(m1, kept, notes, first);
      DirectDistinct(notes, first + later, direct);
      var ids, shown := set x | x in kept :: x.id, set x | x in direct :: x.id;
      forall x | x in kept ensures x.id in shown - {y.id} {
        StillShown(notes, first, later, direct, x, y);
      }
      IdsSize(kept);
      IdsSize(direct);
      assert y.id in shown;
      SubsetSize(ids, shown - {y.id});
    }
  }

  lemma DirectDistinct(notes: seq<Note>, events: seq<Event>, direct: seq<Note>)
    requires Top(direct, WithEvents(Indexed(notes), events))
    ensures forall i, j :: 0 <= i < j < |direct| ==> direct[i].id != direct[j].id
  {
    TopIndexed(WithEvents(Indexed(notes), events), direct, notes, events);
  }

  /** A note that ranked before a shown one is shown as well, in its newest version. */
  lemma StillShown(
    notes: seq<Note>, first: seq<Event>, later: seq<Event>, direct: seq<Note>, x: Note, y: Note)
    requires NoBackdating(notes, first, later)
    requires Top(direct, WithEvents(Indexed(notes), first + later))
    requires x.id in WithEvents(Indexed(notes), first) && WithEvents(Indexed(notes), first)[x.id] == x
    requires y in direct && Before(NoteRank()(x), NoteRank()(y))
    ensures x.id != y.id && exists z :: z in direct && z.id == x.id
  {
    var md := WithEvents(Indexed(notes), first + later);
    NewerVersion(notes, first, later, x);
    NotesKeyed(notes, first + later);
    var z := md[x.id];
    assert z in md.Values && y in md.Values;
    assert md[y.id] == y;
    RankTransitive(z, x, y);
    BeforeStrictTotal(NoteRank()(y), NoteRank()(z), NoteRank()(y));
  }

  lemma Unregenerated(notes: seq<Note>, first: seq<Event>, later: seq<Event>, y: Note)
    requires y in WithEvents(Indexed(notes), first + later).Values
    requires y.id !in WithEvents(map[], first + later)
    ensures y in WithEvents(Indexed(notes), first).Values
    ensures y.id in WithEvents(Indexed(notes), first) && WithEvents(Indexed(notes), first)[y.id] == y
  {
    NotesKeyed(notes, first + later);
    EventsOverride(Indexed(notes), first + later);
    EventsOverride(Indexed(notes), first);
    EventsConcat(map[], first, later);
    EventsOverride(WithEvents(map[], first), later);
    assert y.id in Indexed(notes) && Indexed(notes)[y.id] == y;
    assert WithEvents(Indexed(notes), first)[y.id] == y;
  }

  /** Without backdating, a later version of a note is at least as new. */
  lemma NewerVersion(notes: seq<Note>, first: seq<Event>, later: seq<Event>, x: Note)
    requires NoBackdating(notes, first, later)
    requires x.id in WithEvents(Indexed(notes), first) && WithEvents(Indexed(notes), first)[x.id] == x
    ensures var md := WithEvents(Indexed(notes), first + later);
      x.id in md && md[x.id].id == x.id && md[x.id].createdAt >= x.createdAt
  {
    NotesKeyed(notes, first + later);
    EventsConcat(Indexed(notes), first, later);
    LaterVersion(WithEvents(Indexed(notes), first), later, x.id, x.createdAt);
  }

  lemma {:induction false} LaterVersion(known: NoteMap, later: seq<Event>, id: string, bound: int)
    requires id in known && known[id].createdAt >= bound
    requires forall i :: 0 <= i < |later| && later[i].draft.Some? && NoteOf(later[i].draft.value).id == id ==>
               later[i].draft.value.createdAt >= bound
    ensures id in WithEvents(known, later) && WithEvents(known, later)[id].createdAt >= bound
  {
    if later != [] {
      LaterVersion(known, later[..|later| - 1], id, bound);
    }
  }

  /** A newer version ranks before whatever the older one ranked before. */
  lemma RankTransitive(newer: Note, x: Note, y: Note)
    requires newer.id == x.id && newer.createdAt >= x.createdAt
    requires Before(NoteRank()(x), NoteRank()(y))
    ensures Before(NoteRank()(newer), NoteRank()(y))
  {
    BeforeStrictTotal(NoteRank()(newer), NoteRank()(x), NoteRank()(y));
  }

  lemma {:induction false} IdsSize(list: seq<Note>)
    requires forall i, j :: 0 <= i < j < |list| ==> list[i].id != list[j].id
    ensures |set x | x in list :: x.id| == |list|
  {
    if list != [] {
      var rest := list[1..];
      IdsSize(rest);
      assert (set x | x in list :: x.id) == (set x | x in rest :: x.id) + {list[0].id};
      assert list[0].id !in (set x | x in rest :: x.id);
    }
  }

  /** Apart from the notes, a refresh over the same events at the same time depends only on the fields
      Summarize leaves alone. */
  lemma SameButNotes(
    current: Profile, early: Profile, events: seq<Event>, slug: string -> string, now: int, a: Profile, b: Profile)
    requires early.other == current.other
    requires Summarizes(early, events, slug, now, a) && Summarizes(current, events, slug, now, b)
    requires a.notes == b.notes
    ensures a == b
  {
    var m := StatsOf(events, slug, now);
    var sa :| Lists(sa, m, StatRank()) && a == Derived(early, events, slug, now, sa, a.notes);
    var sb :| Lists(sb, m, StatRank()) && b == Derived(current, events, slug, now, sb, b.notes);
    assert forall x :: x in sa <==> x in sb;
    RankedUnique(sa, sb, StatRank());
  }

  /** NoBackdating is needed: with one note too many to keep, an event that re-issues the newest one with a
      time behind all others makes the two ways differ, because the first refresh dropped the note that
      should now be shown. */
  lemma BackdatingBreaks(
    current: Profile, e: Event, slug: string -> string, t1: int, t2: int,
    early: Profile, late: Profile, direct: Profile)
    requires |current.notes| == MAX_NOTES + 1 && Ranked(current.notes, NoteRank())
    requires forall i, j :: 0 <= i < j < |current.notes| ==> current.notes[i].id != current.notes[j].id
    requires forall i :: 0 <= i < |current.notes| ==> current.notes[i].id != ""
    requires e.draft.Some? && NoteOf(e.draft.value).id == current.notes[0].id
    requires Before(NoteRank()(current.notes[MAX_NOTES]), NoteRank()(NoteOf(e.draft.value)))
    requires Summarizes(current, [], slug, t1, early)
    requires Summarizes(early, [e], slug, t2, late) && Summarizes(current, [e], slug, t2, direct)
    ensures late != direct
  {
    var notes, y := current.notes, current.notes[MAX_NOTES];
    assert [] + [e] == [e] && [e][..0] == [];
    IndexedExact(notes);
    LastDropped(notes, early.notes);
    LastReturns(notes, NoteOf(e.draft.value), direct.notes);
    ResultsAgreeIff(current, [], [e], slug, t1, t2, early, late, direct);
  }

  lemma LastDropped(notes: seq<Note>, kept: seq<Note>)
    requires |notes| == MAX_NOTES + 1 && Ranked(notes, NoteRank()) && Top(kept, Indexed(notes))
    requires forall id :: id in Indexed(notes) ==> Indexed(notes)[id] in notes
    requires forall i :: 0 <= i < |notes| ==> notes[i].id in Indexed(notes) && Indexed(notes)[notes[i].id] == notes[i]
    ensures notes[MAX_NOTES] !in kept
  {
    var m := Indexed(notes);
    forall x ensures x in notes <==> x in m.Values {
      if x in notes {
        var i :| 0 <= i < |notes| && notes[i] == x;
        assert m[notes[i].id] == x;
      }
    }
    ListsTop(notes, m);
    TopUnique(kept, notes[..MAX_NOTES], m);
    RankedDistinct(notes, NoteRank());
  }

  lemma LastReturns(notes: seq<Note>, again: Note, shown: seq<Note>)
    requires |notes| == MAX_NOTES + 1 && Ranked(notes, NoteRank()) && again.id == notes[0].id
    requires forall i, j :: 0 <= i < j < |notes| ==> notes[i].id != notes[j].id
    requires forall id :: id in Indexed(notes) ==> Indexed(notes)[id].id == id && Indexed(notes)[id] in notes
    requires forall i :: 0 <= i < |notes| ==> notes[i].id in Indexed(notes) && Indexed(notes)[notes[i].id] == notes[i]
    requires Before(NoteRank()(notes[MAX_NOTES]), NoteRank()(again))
    requires Top(shown, Indexed(notes)[again.id := again])
    ensures notes[MAX_NOTES] in shown
  {
    var y, middle, m := notes[MAX_NOTES], notes[1..MAX_NOTES], Indexed(notes)[again.id := again];
    if y !in shown {
      assert y.id != again.id && m[y.id] == y && y in m.Values;
      forall z | z in shown ensures z in middle {
        var id :| id in m && m[id] == z;
        BeforeStrictTotal(NoteRank()(y), NoteRank()(z), NoteRank()(y));
        BeforeStrictTotal(NoteRank()(y), NoteRank()(again), NoteRank()(y));
        assert z != again && z in notes;
        var k :| 0 <= k < |notes| && notes[k] == z;
        assert k != 0 && k != MAX_NOTES;
        assert middle[k - 1] == z;
      }
      RankedSize(shown, NoteRank());
      RankedSize(middle, NoteRank());
      SubsetSize(set z | z in shown, set z | z in middle);
    }
  }

  /** Refreshing again with the same events at the same time changes nothing. */
  lemma Idempotent(
    current: Profile, events: seq<Event>, slug: string -> string, now: int, once: Profile, twice: Profile)
    requires Summarizes(current, events, slug, now, once) && Summarizes(once, events, slug, now, twice)
    ensures twice == once
  {
    assert events + [] == events;
    IncrementalRefresh(current, events, [], slug, now, now, once, twice, once);
  }

  /** Strengths and growth edges share no label, are at most five each, and name derived skills. */
  lemma LabelsDisjoint(current: Profile, events: seq<Event>, slug: string -> string, now: int, next: Profile)
    requires Summarizes(current, events, slug, now, next)
    ensures |next.strengths| <= MAX_LABELS && |next.edges| <= MAX_LABELS
    ensures forall name :: name in next.strengths ==> name !in next.edges
    ensures forall name :: name in next.strengths || name in next.edges ==>
      exists k :: 0 <= k < |next.skills| && next.skills[k].name == name
  {
    var stats :| Lists(stats, StatsOf(events, slug, now), StatRank())
      && next == Derived(current, events, slug, now, stats, next.notes);
    StatsKeyed(events, slug, now);
    forall name | name in next.strengths || name in next.edges
      ensures exists k :: 0 <= k < |next.skills| && next.skills[k].name == name
    {
      if name in next.strengths {
        var i := PickedFrom(stats, Strong, name);
        assert next.skills[i].name == name;
      } else {
        var i := PickedFrom(stats, Weak, name);
        assert next.skills[i].name == name;
      }
    }
    forall name | name in next.strengths ensures name !in next.edges {
      if name in next.edges {
        var i := PickedFrom(stats, Strong, name);
        var j := PickedFrom(stats, Weak, name);
        SameName(events, slug, now, stats[i], stats[j]);
      }
    }
  }

  lemma SameName(events: seq<Event>, slug: string -> string, now: int, a: Stat, b: Stat)
    requires a in StatsOf(events, slug, now).Values && b in StatsOf(events, slug, now).Values && a.name == b.name
    ensures a == b
  {
    StatsKeyed(events, slug, now);
  }

  lemma {:induction false} PickedFrom(stats: seq<Stat>, p: Stat -> bool, name: string) returns (i: nat)
    requires name in Picked(stats, p)
    ensures i < |stats| && stats[i].name == name && p(stats[i])
  {
    var last := |stats| - 1;
    if p(stats[last]) && stats[last].name == name {
      i := last;
    } else {
      i := PickedFrom(stats[..last], p, name);
    }
  }

  /** What a statistic counts, said without a fold: the labels in the log whose id it is, in all events
      and in those with a positive or a negative outcome. */
  function Occurrences(events: seq<Event>, slug: string -> string, id: string, p: Event -> bool): nat {
    if events == [] then 0
    else
      var e := events[|events| - 1];
      Occurrences(events[..|events| - 1], slug, id, p) + if p(e) then LabelCount(e.skills, slug, id) else 0
  }

  function LabelCount(names: seq<string>, slug: string -> string, id: string): nat {
    if names == [] then 0
    else LabelCount(names[..|names| - 1], slug, id) + if slug(names[|names| - 1]) == id then 1 else 0
  }

  function Tries(events: seq<Event>, slug: string -> string, id: string): nat {
    Occurrences(events, slug, id, e => true)
  }

  function Wins(events: seq<Event>, slug: string -> string, id: string): nat {
    Occurrences(events, slug, id, (e: Event) => e.outcome > 0)
  }

  function Losses(events: seq<Event>, slug: string -> string, id: string): nat {
    Occurrences(events, slug, id, (e: Event) => e.outcome < 0)
  }

  lemma {:induction false} StatsCount(events: seq<Event>, slug: string -> string, now: int, id: string)
    ensures var stats := StatsOf(events, slug, now);
      && (id in stats <==> Tries(events, slug, id) > 0)
      && (id in stats ==>
            && stats[id].attempts == Tries(events, slug, id)
            && stats[id].positive == Wins(events, slug, id)
            && stats[id].negative == Losses(events, slug, id))
      && (id !in stats ==> Wins(events, slug, id) == 0 && Losses(events, slug, id) == 0)
  {
    if events != [] {
      var e := events[|events| - 1];
      StatsCount(events[..|events| - 1], slug, now, id);
      LabelsCounted(StatsOf(events[..|events| - 1], slug, now), slug, e.skills, e, now, id);
    }
  }

  lemma {:induction false} LabelsCounted(
    stats: Stats, slug: string -> string, names: seq<string>, e: Event, now: int, id: string)
    ensures var after, n := WithLabels(stats, slug, names, e, now), LabelCount(names, slug, id);
      && (id in after <==> id in stats || n > 0)
      && (id in after ==>
            var s := if id in stats then stats[id] else Stat(after[id].name, 0, 0, 0, 0);
            && after[id].attempts == s.attempts + n
            && after[id].positive == s.positive + (if e.outcome > 0 then n else 0)
            && after[id].negative == s.negative + (if e.outcome < 0 then n else 0))
  {
    if names != [] {
      LabelsCounted(stats, slug, names[..|names| - 1], e, now, id);
    }
  }
}
