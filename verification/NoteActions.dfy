/** Applying a batch of create, update and prune actions to the notes of a profile. Notes are held by id;
    a second map remembers which id a concept belongs to, so that an action on an unknown id reaches the
    note about the same concept. */
module NoteActions {
  import opened Notes
  import opened Ranking
  import opened Sequences

  datatype Op = Create | Update | Prune | Unknown

  /** The fields of a note that an action writes; an empty one is left as it is. */
  datatype Change = Change(
    id: string, problemID: string, title: string, summary: string, tags: seq<string>, action: string)

  datatype Action = Action(op: Op, note: Change)

  type ByID = map<string, Note>
  type ByConcept = map<string, string>

  /** The working state: notes by id, ids by concept, and ids in the order they came. */
  datatype Book = Book(byID: ByID, byConcept: ByConcept, order: seq<string>)

  /** normalizeProfileKey is a parameter; the theorems hold for any. */
  type Norm = string -> string

  function ConceptKeys(norm: Norm, problemID: string, title: string): seq<string> {
    (if norm(problemID) != "" then ["problem:" + norm(problemID)] else []) +
    (if norm(title) != "" then ["title:" + norm(title)] else [])
  }

  function KeysOf(norm: Norm, n: Note): seq<string> {
    ConceptKeys(norm, n.problemID, n.title)
  }

  // ---- what the steps compute ----

  function ClaimedFirst(byConcept: ByConcept, keys: seq<string>, id: string): ByConcept {
    if keys == [] then byConcept
    else
      var rest, key := ClaimedFirst(byConcept, keys[..|keys| - 1], id), keys[|keys| - 1];
      if key in rest then rest else rest[key := id]
  }

  function Claimed(byConcept: ByConcept, keys: seq<string>, id: string): ByConcept {
    if keys == [] then byConcept else Claimed(byConcept, keys[..|keys| - 1], id)[keys[|keys| - 1] := id]
  }

  function Entered(b: Book, n: Note, norm: Norm): Book {
    if n.id == "" then b
    else
      Book(b.byID[n.id := n], ClaimedFirst(b.byConcept, KeysOf(norm, n), n.id),
           if n.id in b.byID then b.order else b.order + [n.id])
  }

  function Opened(existing: seq<Note>, norm: Norm): Book {
    if existing == [] then Book(map[], map[], [])
    else Entered(Opened(existing[..|existing| - 1], norm), existing[|existing| - 1], norm)
  }

  /** The id of the first key that belongs to one. */
  function Holder(byConcept: ByConcept, keys: seq<string>, default: string): string {
    if keys == [] then default
    else if keys[0] in byConcept && byConcept[keys[0]] != "" then byConcept[keys[0]]
    else Holder(byConcept, keys[1..], default)
  }

  /** The id an action is about. */
  function Resolved(b: Book, c: Change, norm: Norm): string {
    if c.id in b.byID then c.id else Holder(b.byConcept, ConceptKeys(norm, c.problemID, c.title), c.id)
  }

  function Written(n: Note, c: Change, now: int): Note {
    Note(n.id,
         if c.problemID != "" then c.problemID else n.problemID,
         if c.title != "" then c.title else n.title,
         if c.summary != "" then c.summary else n.summary,
         if n.createdAt == 0 then now else n.createdAt,
         if c.tags != [] then c.tags else n.tags,
         if c.action != "" then c.action else n.action)
  }

  function Acted(b: Book, a: Action, now: int, norm: Norm): Book {
    var id := Resolved(b, a.note, norm);
    match a.op
    case Prune => b.(byID := b.byID - {id})
    case Unknown => b
    case _ =>
      var n := Written(if id in b.byID then b.byID[id] else Note(id, "", "", "", now, [], ""), a.note, now);
      Book(b.byID[id := n], Claimed(b.byConcept, KeysOf(norm, n), id), if id in b.byID then b.order else b.order + [id])
  }

  function ActedAll(b: Book, actions: seq<Action>, now: int, norm: Norm): Book {
    if actions == [] then b
    else Acted(ActedAll(b, actions[..|actions| - 1], now, norm), actions[|actions| - 1], now, norm)
  }

  function Final(existing: seq<Note>, actions: seq<Action>, now: int, norm: Norm): Book {
    ActedAll(Opened(existing, norm), actions, now, norm)
  }

  predicate Meets(norm: Norm, a: Note, b: Note) {
    exists key :: key in KeysOf(norm, a) && key in KeysOf(norm, b)
  }

  ghost predicate Clashes(norm: Norm, list: seq<Note>, n: Note) {
    exists i :: 0 <= i < |list| && Meets(norm, list[i], n)
  }

  /** In the order of the ids, each note that shares no concept with one before it. */
  ghost function Distinct(order: seq<string>, byID: ByID, norm: Norm): seq<Note> {
    if order == [] then []
    else
      var rest, id := Distinct(order[..|order| - 1], byID, norm), order[|order| - 1];
      if id in byID && !Clashes(norm, rest, byID[id]) then rest + [byID[id]] else rest
  }

  /** The result: the distinct notes in rank order, at most 20. */
  ghost predicate Lists(next: seq<Note>, b: Book, norm: Norm) {
    exists full :: WeaklyRanked(full, NoteRank()) && multiset(full) == multiset(Distinct(b.order, b.byID, norm))
      && next == FirstOf(full, MAX_NOTES)
  }

  // ---- the method ----

  method ApplyNoteActions(existing: seq<Note>, actions: seq<Action>, now: int, norm: Norm) returns (next: seq<Note>)
    ensures Lists(next, Final(existing, actions, now, norm), norm)
  {
    var byID, byConcept, orderedIDs := OpenBook(existing, norm);
    ghost var start := Book(byID, byConcept, orderedIDs);
    for n := 0 to |actions|
      invariant Book(byID, byConcept, orderedIDs) == ActedAll(start, actions[..n], now, norm)
    {
      assert actions[..n + 1][..n] == actions[..n];
      byID, byConcept, orderedIDs := Act(byID, byConcept, orderedIDs, actions[n], now, norm);
    }
    assert actions[..|actions|] == actions;
    next := DistinctNotes(byID, orderedIDs, norm);
    next := Sort(next, NoteRank());
    ghost var full := next;
    if |next| > MAX_NOTES {
      next := next[..MAX_NOTES];
    }
    assert next == FirstOf(full, MAX_NOTES);
  }

  method OpenBook(existing: seq<Note>, norm: Norm) returns (byID: ByID, byConcept: ByConcept, orderedIDs: seq<string>)
    ensures Book(byID, byConcept, orderedIDs) == Opened(existing, norm)
  {
    byID, byConcept, orderedIDs := map[], map[], [];
    for n := 0 to |existing|
      invariant Book(byID, byConcept, orderedIDs) == Opened(existing[..n], norm)
    {
      var note := existing[n];
      assert existing[..n + 1][..n] == existing[..n];
      if note.id == "" {
        continue;
      }
      if note.id !in byID {
        orderedIDs := orderedIDs + [note.id];
      }
      byID := byID[note.id := note];
      var keys, before := KeysOf(norm, note), byConcept;
      for k := 0 to |keys|
        invariant byConcept == ClaimedFirst(before, keys[..k], note.id)
      {
        assert keys[..k + 1][..k] == keys[..k];
        if keys[k] !in byConcept {
          byConcept := byConcept[keys[k] := note.id];
        }
      }
      assert keys[..|keys|] == keys;
    }
    assert existing[..|existing|] == existing;
  }

  method Act(byID0: ByID, byConcept0: ByConcept, orderedIDs0: seq<string>, action: Action, now: int, norm: Norm)
    returns (byID: ByID, byConcept: ByConcept, orderedIDs: seq<string>)
    ensures Book(byID, byConcept, orderedIDs) == Acted(Book(byID0, byConcept0, orderedIDs0), action, now, norm)
  {
    byID, byConcept, orderedIDs := byID0, byConcept0, orderedIDs0;
    var id := Resolve(byID, byConcept, orderedIDs, action.note, norm);
    match action.op
    case Unknown =>
    case Prune => byID := byID - {id};
    case _ =>
      var current := Note(id, "", "", "", now, [], "");
      if id in byID {
        current := byID[id];
      } else {
        orderedIDs := orderedIDs + [id];
      }
      var change := action.note;
      if change.title != "" { current := current.(title := change.title); }
      if change.summary != "" { current := current.(summary := change.summary); }
      if change.problemID != "" { current := current.(problemID := change.problemID); }
      if change.tags != [] { current := current.(tags := change.tags); }
      if change.action != "" { current := current.(action := change.action); }
      if current.createdAt == 0 { current := current.(createdAt := now); }
      byConcept := ClaimAll(byConcept, KeysOf(norm, current), id);
      byID := byID[id := current];
  }

  method ClaimAll(byConcept0: ByConcept, keys: seq<string>, id: string) returns (byConcept: ByConcept)
    ensures byConcept == Claimed(byConcept0, keys, id)
  {
    byConcept := byConcept0;
    for k := 0 to |keys|
      invariant byConcept == Claimed(byConcept0, keys[..k], id)
    {
      assert keys[..k + 1][..k] == keys[..k];
      byConcept := byConcept[keys[k] := id];
    }
    assert keys[..|keys|] == keys;
  }

  method Resolve(byID: ByID, byConcept: ByConcept, ghost order: seq<string>, c: Change, norm: Norm) returns (id: string)
    ensures id == Resolved(Book(byID, byConcept, order), c, norm)
  {
    id := c.id;
    if id !in byID {
      var keys := ConceptKeys(norm, c.problemID, c.title);
      for k := 0 to |keys|
        invariant Holder(byConcept, keys, c.id) == Holder(byConcept, keys[k..], c.id) && id == c.id
      {
        Advance(keys, k);
        if keys[k] in byConcept && byConcept[keys[k]] != "" {
          return byConcept[keys[k]];
        }
      }
    }
  }

  method DistinctNotes(byID: ByID, orderedIDs: seq<string>, norm: Norm) returns (next: seq<Note>)
    ensures next == Distinct(orderedIDs, byID, norm)
  {
    next := [];
    var seenConcepts: set<string> := {};
    for n := 0 to |orderedIDs|
      invariant next == Distinct(orderedIDs[..n], byID, norm)
      invariant Knows(norm, next, seenConcepts)
    {
      var id := orderedIDs[n];
      assert orderedIDs[..n + 1][..n] == orderedIDs[..n];
      if id in byID {
        var keys := KeysOf(norm, byID[id]);
        SeenClashes(norm, next, byID[id], seenConcepts);
        if forall key :: key in keys ==> key !in seenConcepts {
          KnowsMore(norm, next, byID[id], seenConcepts);
          next := next + [byID[id]];
          seenConcepts := seenConcepts + (set key | key in keys);
        }
      }
    }
    assert orderedIDs[..|orderedIDs|] == orderedIDs;
  }

  ghost predicate Listed(norm: Norm, list: seq<Note>, key: string) {
    exists i :: 0 <= i < |list| && key in KeysOf(norm, list[i])
  }

  /** `seen` is the set of the listed notes' concepts. */
  ghost predicate Knows(norm: Norm, list: seq<Note>, seen: set<string>) {
    forall key :: key in seen <==> Listed(norm, list, key)
  }

  lemma KnowsMore(norm: Norm, list: seq<Note>, n: Note, seen: set<string>)
    requires Knows(norm, list, seen)
    ensures Knows(norm, list + [n], seen + set key | key in KeysOf(norm, n))
  {
    var all := list + [n];
    forall key ensures Listed(norm, all, key) <==> Listed(norm, list, key) || key in KeysOf(norm, n) {
      if Listed(norm, list, key) {
        var i :| 0 <= i < |list| && key in KeysOf(norm, list[i]);
        assert all[i] == list[i];
      }
      if key in KeysOf(norm, n) {
        assert all[|list|] == n;
      }
    }
  }

  lemma SeenClashes(norm: Norm, list: seq<Note>, n: Note, seen: set<string>)
    requires Knows(norm, list, seen)
    ensures Clashes(norm, list, n) <==> exists key :: key in KeysOf(norm, n) && key in seen
  {
    if Clashes(norm, list, n) {
      var i :| 0 <= i < |list| && Meets(norm, list[i], n);
      var key :| key in KeysOf(norm, list[i]) && key in KeysOf(norm, n);
      assert Listed(norm, list, key);
    }
    if key :| key in KeysOf(norm, n) && key in seen {
      var i :| 0 <= i < |list| && key in KeysOf(norm, list[i]);
      assert Meets(norm, list[i], n);
    }
  }

  // ---- the book ----

  /** Every note is held under its own id, and its id is in the order. */
  predicate BookOK(b: Book) {
    forall id :: id in b.byID ==> b.byID[id].id == id && id in b.order
  }

  lemma {:induction false} OpenedOK(existing: seq<Note>, norm: Norm)
    ensures BookOK(Opened(existing, norm))
  {
    if existing != [] {
      OpenedOK(existing[..|existing| - 1], norm);
    }
  }

  lemma ActedOK(b: Book, a: Action, now: int, norm: Norm)
    requires BookOK(b)
    ensures BookOK(Acted(b, a, now, norm))
  {
  }

  lemma {:induction false} FinalOK(existing: seq<Note>, actions: seq<Action>, now: int, norm: Norm)
    ensures BookOK(Final(existing, actions, now, norm))
  {
    if actions == [] {
      OpenedOK(existing, norm);
    } else {
      FinalOK(existing, actions[..|actions| - 1], now, norm);
      ActedOK(Final(existing, actions[..|actions| - 1], now, norm), actions[|actions| - 1], now, norm);
    }
  }

  // ---- the distinct notes ----

  predicate KeyDisjoint(norm: Norm, list: seq<Note>) {
    forall i, j :: 0 <= i < j < |list| ==> !Meets(norm, list[i], list[j])
  }

  lemma {:induction false} DistinctDisjoint(order: seq<string>, byID: ByID, norm: Norm)
    ensures KeyDisjoint(norm, Distinct(order, byID, norm))
  {
    if order != [] {
      DistinctDisjoint(order[..|order| - 1], byID, norm);
    }
  }

  /** Which notes are listed: every one held, unless a listed one shares a concept with it. */
  lemma {:induction false} DistinctCovers(order: seq<string>, byID: ByID, norm: Norm)
    ensures forall n :: n in Distinct(order, byID, norm) ==> n in byID.Values
    ensures forall id :: id in order && id in byID ==>
      byID[id] in Distinct(order, byID, norm) || Clashes(norm, Distinct(order, byID, norm), byID[id])
  {
    if order != [] {
      var front, last := order[..|order| - 1], order[|order| - 1];
      DistinctCovers(front, byID, norm);
      var rest, list := Distinct(front, byID, norm), Distinct(order, byID, norm);
      forall id | id in order && id in byID ensures byID[id] in list || Clashes(norm, list, byID[id]) {
        if id in front && Clashes(norm, rest, byID[id]) {
          var i :| 0 <= i < |rest| && Meets(norm, rest[i], byID[id]);
          assert list[i] == rest[i];
        }
      }
    }
  }

  /** How often a note is listed: at most as often as its id is in the order, and exactly as often if it
      has no concept. */
  lemma {:induction false} DistinctCount(order: seq<string>, byID: ByID, norm: Norm, n: Note)
    requires n.id in byID && byID[n.id] == n
    requires forall id :: id in byID ==> byID[id].id == id
    ensures multiset(Distinct(order, byID, norm))[n] <= multiset(order)[n.id]
    ensures KeysOf(norm, n) == [] ==> multiset(Distinct(order, byID, norm))[n] == multiset(order)[n.id]
  {
    if order != [] {
      var front, last := order[..|order| - 1], order[|order| - 1];
      DistinctCount(front, byID, norm, n);
      assert order == front + [last];
    }
  }

  lemma MeetsItself(norm: Norm, n: Note)
    ensures Meets(norm, n, n) <==> KeysOf(norm, n) != []
  {
    if KeysOf(norm, n) != [] {
      assert KeysOf(norm, n)[0] in KeysOf(norm, n);
    }
  }

  lemma TwoCopies<T>(s: seq<T>, i: nat, j: nat)
    requires i < j < |s| && s[i] == s[j]
    ensures multiset(s)[s[i]] > 1
  {
    assert s == s[..i] + [s[i]] + s[i + 1..j] + [s[j]] + s[j + 1..];
  }

  lemma {:induction false} TwoPlaces<T>(s: seq<T>, x: T) returns (i: nat, j: nat)
    requires multiset(s)[x] > 1
    ensures i < j < |s| && s[i] == x && s[j] == x
  {
    var front, last := s[..|s| - 1], s[|s| - 1];
    assert s == front + [last];
    if last == x {
      j := |front|;
      assert x in multiset(front);
      i :| 0 <= i < |front| && front[i] == x;
    } else {
      i, j := TwoPlaces(front, x);
    }
  }

  // ---- the promises ----

  lemma Sorted(next: seq<Note>, b: Book, norm: Norm) returns (full: seq<Note>)
    requires Lists(next, b, norm)
    ensures WeaklyRanked(full, NoteRank()) && multiset(full) == multiset(Distinct(b.order, b.byID, norm))
    ensures next == FirstOf(full, MAX_NOTES)
  {
    full :| WeaklyRanked(full, NoteRank()) && multiset(full) == multiset(Distinct(b.order, b.byID, norm))
      && next == FirstOf(full, MAX_NOTES);
  }

  /** At most 20 notes, newest first with the id as tie-break, no two about one concept. */
  lemma Shape(existing: seq<Note>, actions: seq<Action>, now: int, norm: Norm, next: seq<Note>)
    requires Lists(next, Final(existing, actions, now, norm), norm)
    ensures |next| <= 20 && WeaklyRanked(next, NoteRank()) && KeyDisjoint(norm, next)
  {
    var b := Final(existing, actions, now, norm);
    var full := Sorted(next, b, norm);
    DistinctDisjoint(b.order, b.byID, norm);
    forall i, j | 0 <= i < j < |full| ensures !Meets(norm, full[i], full[j]) {
      DisjointRearranged(norm, Distinct(b.order, b.byID, norm), full, i, j);
    }
  }

  lemma DisjointRearranged(norm: Norm, list: seq<Note>, full: seq<Note>, i: nat, j: nat)
    requires KeyDisjoint(norm, list) && multiset(full) == multiset(list) && i < j < |full|
    ensures !Meets(norm, full[i], full[j])
  {
    var p, q := PairBack(list, full, i, j);
    if q < p {
      assert !Meets(norm, list[q], list[p]);
    }
  }

  /** Two places of a rearrangement come from two places. */
  lemma PairBack<T>(list: seq<T>, full: seq<T>, i: nat, j: nat) returns (p: nat, q: nat)
    requires multiset(full) == multiset(list) && i < j < |full|
    ensures p < |list| && q < |list| && p != q && list[p] == full[i] && list[q] == full[j]
  {
    if full[i] == full[j] {
      TwoCopies(full, i, j);
      p, q := TwoPlaces(list, full[i]);
    } else {
      assert full[i] in multiset(list) && full[j] in multiset(list);
      p :| 0 <= p < |list| && list[p] == full[i];
      q :| 0 <= q < |list| && list[q] == full[j];
    }
  }

  /** Neither map order nor the sort shows: the result is a function of the inputs. */
  lemma Determined(existing: seq<Note>, actions: seq<Action>, now: int, norm: Norm, a: seq<Note>, b: seq<Note>)
    requires Lists(a, Final(existing, actions, now, norm), norm) && Lists(b, Final(existing, actions, now, norm), norm)
    ensures a == b
  {
    var book := Final(existing, actions, now, norm);
    var list := Distinct(book.order, book.byID, norm);
    var fa := Sorted(a, book, norm);
    var fb := Sorted(b, book, norm);
    FinalOK(existing, actions, now, norm);
    DistinctCovers(book.order, book.byID, norm);
    forall x, y | x in fa && y in fa && NoteRank()(x) == NoteRank()(y) ensures x == y {
      assert x in multiset(list) && y in multiset(list);
      assert x in list && y in list;
    }
    WeaklyRankedUnique(fa, fb, NoteRank());
  }

  /** No action up to the end is a prune that reaches `id`, directly or through a concept. */
  predicate Unpruned(b: Book, actions: seq<Action>, now: int, norm: Norm, id: string) {
    forall i :: 0 <= i < |actions| && actions[i].op == Prune ==>
      Resolved(ActedAll(b, actions[..i], now, norm), actions[i].note, norm) != id
  }

  lemma {:induction false} StaysHeld(b: Book, actions: seq<Action>, now: int, norm: Norm, id: string)
    requires BookOK(b) && id in b.byID && Unpruned(b, actions, now, norm, id)
    ensures var end := ActedAll(b, actions, now, norm);
      && id in end.byID && end.byID[id].id == id
      && (b.byID[id].createdAt != 0 ==> end.byID[id].createdAt == b.byID[id].createdAt)
  {
    if actions != [] {
      var front, last := actions[..|actions| - 1], actions[|actions| - 1];
      UnprunedFront(b, actions, now, norm, id);
      StaysHeld(b, front, now, norm, id);
    }
  }

  lemma UnprunedFront(b: Book, actions: seq<Action>, now: int, norm: Norm, id: string)
    requires actions != [] && Unpruned(b, actions, now, norm, id)
    ensures Unpruned(b, actions[..|actions| - 1], now, norm, id)
  {
    var front := actions[..|actions| - 1];
    forall i | 0 <= i < |front| && front[i].op == Prune
      ensures Resolved(ActedAll(b, front[..i], now, norm), front[i].note, norm) != id
    {
      assert actions[i] == front[i] && actions[..i] == front[..i];
    }
  }

  /** The changes that reach `id`, in order. */
  function Reaching(b: Book, actions: seq<Action>, now: int, norm: Norm, id: string): seq<Change> {
    if actions == [] then []
    else
      var front, last := actions[..|actions| - 1], actions[|actions| - 1];
      var rest := Reaching(b, front, now, norm, id);
      if Reaches(ActedAll(b, front, now, norm), last, norm, id) then rest + [last.note] else rest
  }

  /** The last value that is set, or else the first one there was. */
  function LastSet<T(==)>(changes: seq<Change>, field: Change -> seq<T>, first: seq<T>): seq<T> {
    if changes == [] then first
    else if field(changes[|changes| - 1]) != [] then field(changes[|changes| - 1])
    else LastSet(changes[..|changes| - 1], field, first)
  }

  function TitleOf(c: Change): string { c.title }
  function SummaryOf(c: Change): string { c.summary }
  function ProblemOf(c: Change): string { c.problemID }
  function DispositionOf(c: Change): string { c.action }
  function TagsOf(c: Change): seq<string> { c.tags }

  predicate FieldsFrom(end: Note, changes: seq<Change>, n: Note) {
    && end.title == LastSet(changes, TitleOf, n.title)
    && end.summary == LastSet(changes, SummaryOf, n.summary)
    && end.problemID == LastSet(changes, ProblemOf, n.problemID)
    && end.action == LastSet(changes, DispositionOf, n.action)
    && end.tags == LastSet(changes, TagsOf, n.tags)
  }

  /** Every field an action can set in a note that is never pruned is the last value any action set in it, by
      the note's own id or through one of its concepts, or else what it was. */
  lemma {:induction false} LastWriteWins(b: Book, actions: seq<Action>, now: int, norm: Norm, id: string)
    requires BookOK(b) && id in b.byID && Unpruned(b, actions, now, norm, id)
    ensures id in ActedAll(b, actions, now, norm).byID
    ensures FieldsFrom(ActedAll(b, actions, now, norm).byID[id], Reaching(b, actions, now, norm, id), b.byID[id])
  {
    if actions != [] {
      var front, last := actions[..|actions| - 1], actions[|actions| - 1];
      UnprunedFront(b, actions, now, norm, id);
      LastWriteWins(b, front, now, norm, id);
      var mid := ActedAll(b, front, now, norm);
      ReachedNote(mid, last, now, norm, id);
      FieldsNext(mid.byID[id], Reaching(b, front, now, norm, id), b.byID[id], last.note, now);
    }
  }

  predicate Reaches(b: Book, a: Action, norm: Norm, id: string) {
    (a.op == Create || a.op == Update) && Resolved(b, a.note, norm) == id
  }

  lemma ReachedNote(b: Book, a: Action, now: int, norm: Norm, id: string)
    requires id in b.byID && (a.op == Prune ==> Resolved(b, a.note, norm) != id)
    ensures var after := Acted(b, a, now, norm).byID;
      id in after && after[id] == if Reaches(b, a, norm, id) then Written(b.byID[id], a.note, now) else b.byID[id]
  {
  }

  lemma FieldsNext(mid: Note, changes: seq<Change>, n: Note, c: Change, now: int)
    requires FieldsFrom(mid, changes, n)
    ensures FieldsFrom(Written(mid, c, now), changes + [c], n)
  {
    LastSetNext(changes, c, TitleOf, n.title);
    LastSetNext(changes, c, SummaryOf, n.summary);
    LastSetNext(changes, c, ProblemOf, n.problemID);
    LastSetNext(changes, c, DispositionOf, n.action);
    LastSetNext(changes, c, TagsOf, n.tags);
  }

  lemma LastSetNext<T>(rest: seq<Change>, c: Change, field: Change -> seq<T>, first: seq<T>)
    ensures LastSet(rest + [c], field, first) == if field(c) != [] then field(c) else LastSet(rest, field, first)
  {
    assert (rest + [c])[..|rest|] == rest;
  }

  lemma ListedNote(next: seq<Note>, b: Book, norm: Norm, y: Note)
    requires Lists(next, b, norm) && BookOK(b) && y in next
    ensures y.id in b.byID && b.byID[y.id] == y
  {
    var full := Sorted(next, b, norm);
    var list := Distinct(b.order, b.byID, norm);
    DistinctCovers(b.order, b.byID, norm);
    assert y in full;
    assert y in multiset(list);
    assert y in list;
  }

  /** An existing note that no prune reaches keeps its id and its creation time, whatever the actions
      change in it, and is the only note that can be listed under that id. */
  lemma SurvivorKeepsCreation(
    existing: seq<Note>, actions: seq<Action>, now: int, norm: Norm, next: seq<Note>, id: string)
    requires Lists(next, Final(existing, actions, now, norm), norm)
    requires id in Opened(existing, norm).byID && Unpruned(Opened(existing, norm), actions, now, norm, id)
    ensures var first, last := Opened(existing, norm).byID, Final(existing, actions, now, norm).byID;
      && id in last && last[id].id == id
      && (first[id].createdAt != 0 ==> last[id].createdAt == first[id].createdAt)
      && forall y :: y in next && y.id == id ==> y == last[id]
  {
    OpenedOK(existing, norm);
    StaysHeld(Opened(existing, norm), actions, now, norm, id);
    FinalOK(existing, actions, now, norm);
    forall y | y in next && y.id == id ensures y == Final(existing, actions, now, norm).byID[id] {
      ListedNote(next, Final(existing, actions, now, norm), norm, y);
    }
  }

  /** The note is listed, or 20 listed notes rank before it or beside it. */
  ghost predicate Placed(next: seq<Note>, n: Note) {
    n in next || (|next| == 20 && forall y :: y in next ==> !Before(NoteRank()(n), NoteRank()(y)))
  }

  /** Another note about one of the concepts of `n`, whose id came before that of `n` ever did. */
  ghost predicate Preferred(b: Book, norm: Norm, m: Note, n: Note) {
    && m.id != n.id && Meets(norm, m, n)
    && m.id in b.byID && b.byID[m.id] == m
    && exists i :: 0 <= i < |b.order| && b.order[i] == m.id && n.id !in b.order[..i]
  }

  /** Nothing is dropped without a reason: a held note is listed or ranks behind 20 listed ones, or this
      is so of another held note about one of its concepts that came earlier. */
  lemma HeldNotesListed(existing: seq<Note>, actions: seq<Action>, now: int, norm: Norm, next: seq<Note>)
    requires Lists(next, Final(existing, actions, now, norm), norm)
    ensures var b := Final(existing, actions, now, norm);
      forall id :: id in b.byID ==>
        Placed(next, b.byID[id]) || exists m :: Preferred(b, norm, m, b.byID[id]) && Placed(next, m)
  {
    var b := Final(existing, actions, now, norm);
    FinalOK(existing, actions, now, norm);
    var list := Distinct(b.order, b.byID, norm);
    var full := Sorted(next, b, norm);
    assert forall x :: x in list ==> x in multiset(full);
    forall id | id in b.byID
      ensures Placed(next, b.byID[id]) || exists m :: Preferred(b, norm, m, b.byID[id]) && Placed(next, m)
    {
      if b.byID[id] in list {
        BehindTheFirst(full, next, b.byID[id]);
      } else {
        var m := PreferredTo(b.order, b.byID, norm, id);
        BehindTheFirst(full, next, m);
        assert Preferred(b, norm, m, b.byID[id]);
      }
    }
  }

  /** Why a held note is not among the distinct ones. */
  lemma {:induction false} PreferredTo(order: seq<string>, byID: ByID, norm: Norm, id: string) returns (m: Note)
    requires forall i :: i in byID ==> byID[i].id == i
    requires id in order && id in byID && byID[id] !in Distinct(order, byID, norm)
    ensures m in Distinct(order, byID, norm) && m.id != id && Meets(norm, m, byID[id])
    ensures m.id in byID && byID[m.id] == m
    ensures exists i :: 0 <= i < |order| && order[i] == m.id && id !in order[..i]
  {
    var front, last := order[..|order| - 1], order[|order| - 1];
    assert order == front + [last];
    if id in front {
      m := PreferredTo(front, byID, norm, id);
      var i :| 0 <= i < |front| && front[i] == m.id && id !in front[..i];
      assert order[i] == m.id && order[..i] == front[..i];
    } else {
      var rest := Distinct(front, byID, norm);
      var k :| 0 <= k < |rest| && Meets(norm, rest[k], byID[id]);
      m := rest[k];
      DistinctComes(front, byID, norm, m);
      var i :| 0 <= i < |front| && front[i] == m.id;
      assert order[i] == m.id && forall j :: 0 <= j < i ==> order[j] == front[j];
    }
  }

  /** A distinct note is held, and its id came. */
  lemma {:induction false} DistinctComes(order: seq<string>, byID: ByID, norm: Norm, m: Note)
    requires forall i :: i in byID ==> byID[i].id == i
    requires m in Distinct(order, byID, norm)
    ensures m.id in order && m.id in byID && byID[m.id] == m
  {
    var front, last := order[..|order| - 1], order[|order| - 1];
    assert order == front + [last];
    if m in Distinct(front, byID, norm) {
      DistinctComes(front, byID, norm, m);
    }
  }

  lemma BehindTheFirst(full: seq<Note>, next: seq<Note>, n: Note)
    requires WeaklyRanked(full, NoteRank()) && next == FirstOf(full, MAX_NOTES) && n in full
    ensures n in next || (|next| == 20 && forall y :: y in next ==> !Before(NoteRank()(n), NoteRank()(y)))
  {
    var k :| 0 <= k < |full| && full[k] == n;
    if k < |next| {
      assert next[k] == n;
    } else {
      forall y | y in next ensures !Before(NoteRank()(n), NoteRank()(y)) {
        var i :| 0 <= i < |next| && next[i] == y;
        assert full[i] == y;
      }
    }
  }

  /** No later create or update reaches `id`. */
  predicate Unwritten(b: Book, actions: seq<Action>, now: int, norm: Norm, id: string) {
    forall i :: 0 <= i < |actions| && (actions[i].op == Create || actions[i].op == Update) ==>
      Resolved(ActedAll(b, actions[..i], now, norm), actions[i].note, norm) != id
  }

  lemma {:induction false} StaysGone(b: Book, actions: seq<Action>, now: int, norm: Norm, id: string)
    requires id !in b.byID && Unwritten(b, actions, now, norm, id)
    ensures id !in ActedAll(b, actions, now, norm).byID
  {
    if actions != [] {
      var front := actions[..|actions| - 1];
      forall i | 0 <= i < |front| && (front[i].op == Create || front[i].op == Update)
        ensures Resolved(ActedAll(b, front[..i], now, norm), front[i].note, norm) != id
      {
        assert actions[i] == front[i] && actions[..i] == front[..i];
      }
      StaysGone(b, front, now, norm, id);
    }
  }

  lemma {:induction false} ActedConcat(b: Book, first: seq<Action>, later: seq<Action>, now: int, norm: Norm)
    ensures ActedAll(b, first + later, now, norm) == ActedAll(ActedAll(b, first, now, norm), later, now, norm)
  {
    if later == [] {
      assert first + later == first;
    } else {
      var front, last := later[..|later| - 1], later[|later| - 1];
      ActedConcat(b, first, front, now, norm);
      ActedNext(b, first + front, last, now, norm);
      ActedNext(ActedAll(b, first, now, norm), front, last, now, norm);
      assert later == front + [last];
      Associate(first, front, [last]);
    }
  }

  lemma ActedNext(b: Book, front: seq<Action>, last: Action, now: int, norm: Norm)
    ensures ActedAll(b, front + [last], now, norm) == Acted(ActedAll(b, front, now, norm), last, now, norm)
  {
    var all := front + [last];
    assert all[..|all| - 1] == front && all[|all| - 1] == last;
  }

  /** A pruned note stays away unless a later action writes it again. */
  lemma PrunedNoteGone(
    existing: seq<Note>, first: seq<Action>, prune: Action, later: seq<Action>, now: int, norm: Norm, next: seq<Note>)
    requires prune.op == Prune
    requires Lists(next, Final(existing, first + [prune] + later, now, norm), norm)
    ensures var b := Final(existing, first, now, norm);
      var id := Resolved(b, prune.note, norm);
      Unwritten(Acted(b, prune, now, norm), later, now, norm, id) ==> forall y :: y in next ==> y.id != id
  {
    var start := Opened(existing, norm);
    var b := ActedAll(start, first, now, norm);
    var id := Resolved(b, prune.note, norm);
    if Unwritten(Acted(b, prune, now, norm), later, now, norm, id) {
      ActedConcat(start, first + [prune], later, now, norm);
      ActedConcat(start, first, [prune], now, norm);
      ActedOne(b, prune, now, norm);
      StaysGone(Acted(b, prune, now, norm), later, now, norm, id);
      FinalOK(existing, first + [prune] + later, now, norm);
      forall y | y in next ensures y.id != id {
        ListedNote(next, Final(existing, first + [prune] + later, now, norm), norm, y);
      }
    }
  }

  lemma ActedOne(b: Book, a: Action, now: int, norm: Norm)
    ensures ActedAll(b, [a], now, norm) == Acted(b, a, now, norm)
  {
    assert [a][..0] == [];
  }

  // ---- claims and arrivals ----

  /** Among the existing notes every id comes once. */
  lemma {:induction false} OpenedOnce(existing: seq<Note>, norm: Norm, id: string)
    ensures var b := Opened(existing, norm); multiset(b.order)[id] == if id in b.byID then 1 else 0
  {
    if existing != [] {
      OpenedOnce(existing[..|existing| - 1], norm, id);
      OpenedOnce(existing[..|existing| - 1], norm, existing[|existing| - 1].id);
    }
  }

  lemma {:induction false} ClaimedKeys(byConcept: ByConcept, keys: seq<string>, id: string)
    ensures var after := Claimed(byConcept, keys, id);
      && (forall key :: key in after <==> key in byConcept || key in keys)
      && (forall key :: key in after ==> after[key] == if key in keys then id else byConcept[key])
  {
    if keys != [] {
      ClaimedKeys(byConcept, keys[..|keys| - 1], id);
      assert keys == keys[..|keys| - 1] + [keys[|keys| - 1]];
    }
  }

  lemma {:induction false} ClaimedFirstKeys(byConcept: ByConcept, keys: seq<string>, id: string)
    ensures var after := ClaimedFirst(byConcept, keys, id);
      && (forall key :: key in after <==> key in byConcept || key in keys)
      && (forall key :: key in after ==> after[key] == if key in byConcept then byConcept[key] else id)
  {
    if keys != [] {
      ClaimedFirstKeys(byConcept, keys[..|keys| - 1], id);
      assert keys == keys[..|keys| - 1] + [keys[|keys| - 1]];
    }
  }
}
