/** Where a note that is held after a batch of actions comes from, and what it says: told from the existing
    notes and the actions, without the maps that ApplyNoteActions keeps. */
module NoteHistory {
  import opened NoteActions
  import opened Notes
  import opened Options
  import opened Sequences

  // ---- concepts ----

  /** Two notes are about the same thing: problem ids or titles that normalize to the same, which is not
      nothing. */
  predicate SameConcept(norm: Norm, a: Note, b: Note) {
    || (norm(a.problemID) != "" && norm(a.problemID) == norm(b.problemID))
    || (norm(a.title) != "" && norm(a.title) == norm(b.title))
  }

  lemma MeetsIff(norm: Norm, a: Note, b: Note)
    ensures Meets(norm, a, b) <==> SameConcept(norm, a, b)
  {
    KeysAre(norm, a.problemID, a.title);
    KeysAre(norm, b.problemID, b.title);
    KeysDiffer(norm(a.problemID), norm(b.problemID), norm(a.title), norm(b.title));
    KeysDiffer(norm(b.problemID), norm(a.problemID), norm(b.title), norm(a.title));
    if norm(a.problemID) != "" && norm(a.problemID) == norm(b.problemID) {
      assert ProblemKey(norm(a.problemID)) in KeysOf(norm, a);
    }
    if norm(a.title) != "" && norm(a.title) == norm(b.title) {
      assert TitleKey(norm(a.title)) in KeysOf(norm, a);
    }
  }

  function ProblemKey(problem: string): string { "problem:" + problem }
  function TitleKey(title: string): string { "title:" + title }

  lemma KeysAre(norm: Norm, problemID: string, title: string)
    ensures forall key :: key in ConceptKeys(norm, problemID, title) <==>
      || (norm(problemID) != "" && key == ProblemKey(norm(problemID)))
      || (norm(title) != "" && key == TitleKey(norm(title)))
  {
  }

  lemma KeysDiffer(p: string, q: string, t: string, u: string)
    ensures ProblemKey(p) == ProblemKey(q) <==> p == q
    ensures TitleKey(t) == TitleKey(u) <==> t == u
    ensures ProblemKey(p) != TitleKey(u)
  {
    assert ProblemKey(p)[8..] == p && ProblemKey(q)[8..] == q;
    assert TitleKey(t)[6..] == t && TitleKey(u)[6..] == u;
    assert ProblemKey(p)[0] == 'p' && TitleKey(u)[0] == 't';
  }

  /** Which note an action is about: the one with its id, if there is one; else the one that its problem
      belongs to, else the one that its title belongs to, else a new one. */
  lemma AboutIs(b: Book, c: Change, norm: Norm)
    ensures var p, t := ProblemKey(norm(c.problemID)), TitleKey(norm(c.title));
      Resolved(b, c, norm) ==
        if c.id in b.byID then c.id
        else if norm(c.problemID) != "" && p in b.byConcept && b.byConcept[p] != "" then b.byConcept[p]
        else if norm(c.title) != "" && t in b.byConcept && b.byConcept[t] != "" then b.byConcept[t]
        else c.id
  {
    var p, t := ProblemKey(norm(c.problemID)), TitleKey(norm(c.title));
    assert ConceptKeys(norm, c.problemID, c.title)
      == (if norm(c.problemID) != "" then [p] else []) + (if norm(c.title) != "" then [t] else []);
    OneHolder(b.byConcept, t, c.id);
    OneHolder(b.byConcept, p, c.id);
    assert ([p] + [t])[1..] == [t];
    assert [p] + [] == [p] && [] + [t] == [t];
  }

  lemma OneHolder(byConcept: ByConcept, key: string, default: string)
    ensures Holder(byConcept, [key], default)
      == if key in byConcept && byConcept[key] != "" then byConcept[key] else default
  {
    assert [key][1..] == [];
  }

  // ---- who a concept belongs to ----

  /** Action j leaves a note with this concept under this id. */
  ghost predicate Writes(b: Book, actions: seq<Action>, now: int, norm: Norm, key: string, j: int, id: string) {
    0 <= j < |actions| && Reaches(ActedAll(b, actions[..j], now, norm), actions[j], norm, id)
    && var after := ActedAll(b, actions[..j + 1], now, norm);
    id in after.byID && key in KeysOf(norm, after.byID[id])
  }

  ghost predicate EverWritten(b: Book, actions: seq<Action>, now: int, norm: Norm, key: string) {
    exists j, id :: Writes(b, actions, now, norm, key, j, id)
  }

  /** The last action that left a note with the concept left it under this id. */
  ghost predicate LastWriter(b: Book, actions: seq<Action>, now: int, norm: Norm, key: string, id: string) {
    exists j :: Writes(b, actions, now, norm, key, j, id)
      && forall k, other :: j < k ==> !Writes(b, actions, now, norm, key, k, other)
  }

  /** The first of the existing notes with an id that is about the concept has this one. */
  ghost predicate FirstHolder(existing: seq<Note>, norm: Norm, key: string, id: string) {
    exists i :: FirstHolds(existing, norm, key, i) && existing[i].id == id
  }

  ghost predicate FirstHolds(existing: seq<Note>, norm: Norm, key: string, i: int) {
    Holds(existing, norm, key, i) && forall k :: 0 <= k < i ==> !Holds(existing, norm, key, k)
  }

  predicate Holds(existing: seq<Note>, norm: Norm, key: string, i: int) {
    0 <= i < |existing| && existing[i].id != "" && key in KeysOf(norm, existing[i])
  }

  /** A concept belongs to the note that an action last left with it, or else to the first existing note about
      it. */
  lemma {:induction false} BelongsTo(existing: seq<Note>, actions: seq<Action>, now: int, norm: Norm, key: string)
    ensures var b := Final(existing, actions, now, norm);
      if EverWritten(Opened(existing, norm), actions, now, norm, key) then
        key in b.byConcept && LastWriter(Opened(existing, norm), actions, now, norm, key, b.byConcept[key])
      else FirstOwns(existing, norm, key, b.byConcept)
  {
    var start := Opened(existing, norm);
    if actions == [] {
      OpenedBelongs(existing, norm, key);
    } else {
      var front, last := actions[..|actions| - 1], actions[|actions| - 1];
      SplitLast(actions);
      BelongsTo(existing, front, now, norm, key);
      FrontWrites(start, front, last, now, norm, key);
      BelongsNext(start, front, last, now, norm, key);
    }
  }

  lemma {:induction false} OpenedBelongs(existing: seq<Note>, norm: Norm, key: string)
    ensures FirstOwns(existing, norm, key, Opened(existing, norm).byConcept)
  {
    if existing != [] {
      var front, n := existing[..|existing| - 1], existing[|existing| - 1];
      SplitLast(existing);
      OpenedBelongs(front, norm, key);
      ClaimedFirstKeys(Opened(front, norm).byConcept, KeysOf(norm, n), n.id);
      FirstOwnsNext(front, n, norm, key, Opened(front, norm).byConcept, Opened(existing, norm).byConcept);
    }
  }

  /** The concept belongs to the first existing note about it, if there is one. */
  ghost predicate FirstOwns(existing: seq<Note>, norm: Norm, key: string, byConcept: ByConcept) {
    if exists i :: Holds(existing, norm, key, i) then
      key in byConcept && FirstHolder(existing, norm, key, byConcept[key])
    else key !in byConcept
  }

  lemma FirstOwnsNext(front: seq<Note>, n: Note, norm: Norm, key: string, before: ByConcept, after: ByConcept)
    requires FirstOwns(front, norm, key, before)
    requires n.id == "" || (key !in KeysOf(norm, n) && key !in before) || key in before ==>
      (key in after <==> key in before) && (key in before ==> after[key] == before[key])
    requires n.id != "" && key in KeysOf(norm, n) && key !in before ==> key in after && after[key] == n.id
    ensures FirstOwns(front + [n], norm, key, after)
  {
    var all := front + [n];
    assert forall i :: 0 <= i < |front| ==> (Holds(front, norm, key, i) <==> Holds(all, norm, key, i));
    if key in before {
      var i :| FirstHolds(front, norm, key, i) && front[i].id == before[key];
      assert FirstHolds(all, norm, key, i) && all[i].id == after[key];
    } else if Holds(all, norm, key, |front|) {
      assert FirstHolds(all, norm, key, |front|) && all[|front|].id == after[key];
    }
  }

  /** The last action apart, the same actions leave the same notes. */
  lemma FrontWrites(b: Book, front: seq<Action>, last: Action, now: int, norm: Norm, key: string)
    ensures forall j, id :: j < |front| ==>
      (Writes(b, front + [last], now, norm, key, j, id) <==> Writes(b, front, now, norm, key, j, id))
  {
    var all := front + [last];
    forall j, id | j < |front|
      ensures Writes(b, all, now, norm, key, j, id) <==> Writes(b, front, now, norm, key, j, id)
    {
      if 0 <= j {
        assert all[..j] == front[..j] && all[..j + 1] == front[..j + 1];
      }
    }
  }

  lemma LastWrites(b: Book, front: seq<Action>, last: Action, now: int, norm: Norm, key: string, id: string)
    ensures var mid := ActedAll(b, front, now, norm);
      Writes(b, front + [last], now, norm, key, |front|, id) <==>
      Reaches(mid, last, norm, id) && key in KeysOf(norm, Acted(mid, last, now, norm).byID[id])
  {
    assert (front + [last])[..|front|] == front && (front + [last])[..|front| + 1] == front + [last];
    ActedNext(b, front, last, now, norm);
  }

  lemma BelongsNext(b: Book, front: seq<Action>, last: Action, now: int, norm: Norm, key: string)
    requires forall j, id :: j < |front| ==>
      (Writes(b, front + [last], now, norm, key, j, id) <==> Writes(b, front, now, norm, key, j, id))
    ensures var mid, end := ActedAll(b, front, now, norm), ActedAll(b, front + [last], now, norm);
      var all, id := front + [last], Resolved(mid, last.note, norm);
      if Writes(b, all, now, norm, key, |front|, id) then
        EverWritten(b, all, now, norm, key) && key in end.byConcept && end.byConcept[key] == id
        && LastWriter(b, all, now, norm, key, id)
      else
        && (key in end.byConcept <==> key in mid.byConcept)
        && (key in mid.byConcept ==> end.byConcept[key] == mid.byConcept[key])
        && (EverWritten(b, all, now, norm, key) <==> EverWritten(b, front, now, norm, key))
        && forall other :: LastWriter(b, front, now, norm, key, other) ==> LastWriter(b, all, now, norm, key, other)
  {
    var mid, all := ActedAll(b, front, now, norm), front + [last];
    var id := Resolved(mid, last.note, norm);
    ActedNext(b, front, last, now, norm);
    LastWrites(b, front, last, now, norm, key, id);
    forall other ensures Writes(b, all, now, norm, key, |front|, other) ==> other == id {
      LastWrites(b, front, last, now, norm, key, other);
    }
    if last.op == Create || last.op == Update {
      ClaimedKeys(mid.byConcept, KeysOf(norm, Acted(mid, last, now, norm).byID[id]), id);
    }
    assert forall j, other :: j > |front| ==> !Writes(b, all, now, norm, key, j, other);
    forall other | LastWriter(b, front, now, norm, key, other) && !Writes(b, all, now, norm, key, |front|, id)
      ensures LastWriter(b, all, now, norm, key, other)
    {
      var j :| Writes(b, front, now, norm, key, j, other)
        && forall k, x :: j < k ==> !Writes(b, front, now, norm, key, k, x);
      assert Writes(b, all, now, norm, key, j, other);
    }
  }

  // ---- what a held note says ----

  /** A held note's past: the existing note it was, if it was one, and the changes that reached it since. */
  datatype Past = Past(origin: Option<Note>, changes: seq<Change>)

  /** The last existing note with the id; notes without one are left out. */
  function Existing(existing: seq<Note>, id: string): Option<Note> {
    if existing == [] || id == "" then None
    else if existing[|existing| - 1].id == id then Some(existing[|existing| - 1])
    else Existing(existing[..|existing| - 1], id)
  }

  function PastOf(existing: seq<Note>, actions: seq<Action>, now: int, norm: Norm, id: string): Option<Past> {
    if actions == [] then
      if Existing(existing, id).Some? then Some(Past(Existing(existing, id), [])) else None
    else
      var front, last := actions[..|actions| - 1], actions[|actions| - 1];
      var mid, past := Final(existing, front, now, norm), PastOf(existing, front, now, norm, id);
      if Resolved(mid, last.note, norm) != id then past
      else match last.op
      case Prune => None
      case Unknown => past
      case _ =>
        if past.Some? then Some(past.value.(changes := past.value.changes + [last.note]))
        else Some(Past(None, [last.note]))
  }

  /** The note says what was last set, or else what it said before; it keeps its time of creation, and a new
      one, or one without, gets the time of the call. */
  predicate Says(n: Note, past: Past, id: string, now: int) {
    var first := if past.origin.Some? then past.origin.value else Note(id, "", "", "", now, [], "");
    && n.id == id && FieldsFrom(n, past.changes, first)
    && n.createdAt == if first.createdAt == 0 && past.changes != [] then now else first.createdAt
  }

  /** In every batch: a note is held at the end exactly if it was there or an action entered it, and no prune
      has taken it away since; and it says what was last set since then. */
  lemma {:induction false} HeldSays(existing: seq<Note>, actions: seq<Action>, now: int, norm: Norm, id: string)
    ensures var end, past := Final(existing, actions, now, norm).byID, PastOf(existing, actions, now, norm, id);
      (id in end <==> past.Some?) && (id in end ==> Says(end[id], past.value, id, now))
  {
    if actions == [] {
      OpenedHolds(existing, norm, id);
    } else {
      var front, last := actions[..|actions| - 1], actions[|actions| - 1];
      HeldSays(existing, front, now, norm, id);
      SaysNext(existing, front, last, now, norm, id);
    }
  }

  lemma {:induction false} OpenedHolds(existing: seq<Note>, norm: Norm, id: string)
    ensures var b, n := Opened(existing, norm).byID, Existing(existing, id);
      (id in b <==> n.Some?) && (id in b ==> b[id] == n.value && b[id].id == id)
  {
    if existing != [] {
      OpenedHolds(existing[..|existing| - 1], norm, id);
    }
  }

  lemma SaysNext(existing: seq<Note>, front: seq<Action>, last: Action, now: int, norm: Norm, id: string)
    requires var mid, past := Final(existing, front, now, norm).byID, PastOf(existing, front, now, norm, id);
      (id in mid <==> past.Some?) && (id in mid ==> Says(mid[id], past.value, id, now))
    ensures var end := Acted(Final(existing, front, now, norm), last, now, norm).byID;
      var past := PastOf(existing, front + [last], now, norm, id);
      (id in end <==> past.Some?) && (id in end ==> Says(end[id], past.value, id, now))
  {
    var mid, past := Final(existing, front, now, norm), PastOf(existing, front, now, norm, id);
    assert (front + [last])[..|front|] == front;
    var blank := Note(id, "", "", "", now, [], "");
    if Reaches(mid, last, norm, id) {
      if id in mid.byID {
        var first := if past.value.origin.Some? then past.value.origin.value else blank;
        FieldsNext(mid.byID[id], past.value.changes, first, last.note, now);
      } else {
        FieldsNext(blank, [], blank, last.note, now);
        assert [] + [last.note] == [last.note];
      }
    }
  }

  // ---- the order in which ids come ----

  /** Ids come in the order in which their notes do: the existing ones first, and each that an action enters
      behind all that were there. */
  lemma {:induction false} IdsCome(existing: seq<Note>, actions: seq<Action>, now: int, norm: Norm)
    ensures Opened(existing, norm).order <= Final(existing, actions, now, norm).order
    ensures actions != [] ==>
      var mid, last := Final(existing, actions[..|actions| - 1], now, norm), actions[|actions| - 1];
      var id := Resolved(mid, last.note, norm);
      Final(existing, actions, now, norm).order
        == mid.order + if Reaches(mid, last, norm, id) && id !in mid.byID then [id] else []
  {
    if actions != [] {
      IdsCome(existing, actions[..|actions| - 1], now, norm);
    }
  }

  lemma {:induction false} ExistingCome(existing: seq<Note>, norm: Norm)
    ensures existing != [] ==>
      var front, n := existing[..|existing| - 1], existing[|existing| - 1];
      Opened(existing, norm).order
        == Opened(front, norm).order + if n.id != "" && Existing(front, n.id) == None then [n.id] else []
  {
    if existing != [] {
      OpenedHolds(existing[..|existing| - 1], norm, existing[|existing| - 1].id);
    }
  }
}
