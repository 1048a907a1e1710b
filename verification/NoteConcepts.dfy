/** Whether an action about a known concept reaches the note that holds it. A concept stays claimed by an id
    after its note is pruned, and that is the only way such an action can add a note. */
module NoteConcepts {
  import opened NoteActions
  import opened NoteIds
  import opened Notes
  import opened Ranking
  import opened Sequences

  /** The note is pruned while held, and not written since. */
  ghost predicate Vacated(b: Book, actions: seq<Action>, now: int, norm: Norm, id: string) {
    exists i :: PrunesHeld(b, actions, now, norm, id, i) && NotWrittenAfter(b, actions, now, norm, id, i)
  }

  ghost predicate NotWrittenAfter(b: Book, actions: seq<Action>, now: int, norm: Norm, id: string, i: int) {
    forall j :: i < j < |actions| ==> !WritesTo(b, actions, now, norm, id, j)
  }

  /** Every action names an id, as both parsers of note actions see to. */
  predicate NamesIds(actions: seq<Action>) {
    forall i :: 0 <= i < |actions| ==> actions[i].note.id != ""
  }

  /** An id is vacated exactly when it was pruned and is not held. */
  lemma {:induction false} VacatedIff(b: Book, actions: seq<Action>, now: int, norm: Norm, id: string)
    ensures Vacated(b, actions, now, norm, id) <==>
      EverPruned(b, actions, now, norm, id) && id !in ActedAll(b, actions, now, norm).byID
  {
    if actions != [] {
      var front, last := actions[..|actions| - 1], actions[|actions| - 1];
      SplitLast(actions);
      VacatedIff(b, front, now, norm, id);
      PrunedNext(b, front, last, now, norm, id);
      VacatedNext(b, front, last, now, norm, id);
      LastActs(b, front, last, now, norm, id);
      OneAction(ActedAll(b, front, now, norm), last, now, norm, id);
    }
  }

  lemma VacatedNext(b: Book, front: seq<Action>, last: Action, now: int, norm: Norm, id: string)
    ensures Vacated(b, front + [last], now, norm, id) <==>
      || PrunesHeld(b, front + [last], now, norm, id, |front|)
      || (Vacated(b, front, now, norm, id) && !WritesTo(b, front + [last], now, norm, id, |front|))
  {
    var all := front + [last];
    forall i ensures i < |front| ==>
      (WritesTo(b, all, now, norm, id, i) <==> WritesTo(b, front, now, norm, id, i))
      && (PrunesHeld(b, all, now, norm, id, i) <==> PrunesHeld(b, front, now, norm, id, i))
    {
      FrontPrunes(b, front, last, now, norm, id, i);
    }
    if i :| PrunesHeld(b, front, now, norm, id, i) && NotWrittenAfter(b, front, now, norm, id, i) {
      assert PrunesHeld(b, all, now, norm, id, i);
    }
    if PrunesHeld(b, all, now, norm, id, |front|) {
      assert NotWrittenAfter(b, all, now, norm, id, |front|);
    }
    if i :| PrunesHeld(b, all, now, norm, id, i) && NotWrittenAfter(b, all, now, norm, id, i) {
      assert i < |front| ==> NotWrittenAfter(b, front, now, norm, id, i);
    }
  }

  // ---- who claims a concept ----

  /** A claimed concept belongs to a held note or to one that was pruned, and every concept of a held note is
      claimed. */
  ghost predicate ClaimsOK(start: Book, actions: seq<Action>, now: int, norm: Norm) {
    var b := ActedAll(start, actions, now, norm);
    && (forall key :: key in b.byConcept ==> ClaimantOK(start, actions, now, norm, b.byConcept[key]))
    && ConceptsClaimed(b, norm)
  }

  ghost predicate ClaimantOK(start: Book, actions: seq<Action>, now: int, norm: Norm, id: string) {
    id != "" && (id in ActedAll(start, actions, now, norm).byID || EverPruned(start, actions, now, norm, id))
  }

  ghost predicate ConceptsClaimed(b: Book, norm: Norm) {
    forall id, key :: id in b.byID && key in KeysOf(norm, b.byID[id]) ==> key in b.byConcept
  }

  lemma {:induction false} OpenedClaims(existing: seq<Note>, norm: Norm)
    ensures var b := Opened(existing, norm);
      && (forall key :: key in b.byConcept ==> b.byConcept[key] != "" && b.byConcept[key] in b.byID)
      && ConceptsClaimed(b, norm)
  {
    if existing != [] {
      var front, n := existing[..|existing| - 1], existing[|existing| - 1];
      OpenedClaims(front, norm);
      ClaimedFirstKeys(Opened(front, norm).byConcept, KeysOf(norm, n), n.id);
    }
  }

  lemma {:induction false} HolderClaims(byConcept: ByConcept, keys: seq<string>, default: string)
    requires forall key :: key in byConcept ==> byConcept[key] != ""
    ensures var id := Holder(byConcept, keys, default);
      if exists key :: key in keys && key in byConcept
      then exists key :: key in keys && key in byConcept && byConcept[key] == id
      else id == default
  {
    if keys != [] {
      assert keys == [keys[0]] + keys[1..];
      HolderClaims(byConcept, keys[1..], default);
    }
  }

  lemma {:induction false} ClaimsAll(existing: seq<Note>, actions: seq<Action>, now: int, norm: Norm)
    requires NamesIds(actions)
    ensures ClaimsOK(Opened(existing, norm), actions, now, norm)
  {
    if actions == [] {
      OpenedClaims(existing, norm);
    } else {
      var front, last := actions[..|actions| - 1], actions[|actions| - 1];
      SplitLast(actions);
      ClaimsAll(existing, front, now, norm);
      ClaimsNext(Opened(existing, norm), front, last, now, norm);
    }
  }

  lemma ClaimsNext(start: Book, front: seq<Action>, last: Action, now: int, norm: Norm)
    requires ClaimsOK(start, front, now, norm) && last.note.id != ""
    ensures ClaimsOK(start, front + [last], now, norm)
  {
    var b := ActedAll(start, front, now, norm);
    ActedNext(start, front, last, now, norm);
    var after := Acted(b, last, now, norm);
    ActedClaims(b, last, now, norm);
    forall key | key in after.byConcept
      ensures ClaimantOK(start, front + [last], now, norm, after.byConcept[key])
    {
      ClaimantStays(start, front, last, now, norm, after.byConcept[key]);
    }
  }

  /** The claims after one action: a written note claims its own concepts, all others are as they were. */
  lemma ActedClaims(b: Book, a: Action, now: int, norm: Norm)
    requires ConceptsClaimed(b, norm)
    ensures var after := Acted(b, a, now, norm);
      && ConceptsClaimed(after, norm)
      && (forall key :: key in after.byConcept ==>
            || (key in b.byConcept && after.byConcept[key] == b.byConcept[key])
            || (Reaches(b, a, norm, after.byConcept[key]) && after.byConcept[key] in after.byID))
  {
    if a.op == Create || a.op == Update {
      var id := Resolved(b, a.note, norm);
      var n := Written(if id in b.byID then b.byID[id] else Note(id, "", "", "", now, [], ""), a.note, now);
      ClaimedKeys(b.byConcept, KeysOf(norm, n), id);
    }
  }

  lemma ClaimantStays(start: Book, front: seq<Action>, last: Action, now: int, norm: Norm, id: string)
    requires ClaimsOK(start, front, now, norm) && last.note.id != ""
    requires ClaimantOK(start, front, now, norm, id) || Reaches(ActedAll(start, front, now, norm), last, norm, id)
    ensures ClaimantOK(start, front + [last], now, norm, id)
  {
    var b := ActedAll(start, front, now, norm);
    ActedNext(start, front, last, now, norm);
    PrunedNext(start, front, last, now, norm, id);
    LastActs(start, front, last, now, norm, id);
    OneAction(b, last, now, norm, id);
    if Reaches(b, last, norm, id) && last.note.id !in b.byID {
      HolderClaims(b.byConcept, ConceptKeys(norm, last.note.problemID, last.note.title), last.note.id);
    }
  }

  // ---- the promises ----

  /** Exactly when a create or update about a concept of a held note adds a note, after any actions that name
      ids: when its own id is not held and the id that claims the concept was pruned and not written since. */
  lemma HeldConceptIsReused(
    existing: seq<Note>, actions: seq<Action>, a: Action, now: int, norm: Norm, id: string, key: string)
    requires NamesIds(actions)
    requires id in Final(existing, actions, now, norm).byID
    requires key in KeysOf(norm, Final(existing, actions, now, norm).byID[id])
    requires key in ConceptKeys(norm, a.note.problemID, a.note.title) && (a.op == Create || a.op == Update)
    ensures var b := Final(existing, actions, now, norm);
      var claimant := Holder(b.byConcept, ConceptKeys(norm, a.note.problemID, a.note.title), a.note.id);
      Acted(b, a, now, norm).byID.Keys != b.byID.Keys <==>
        a.note.id !in b.byID && Vacated(Opened(existing, norm), actions, now, norm, claimant)
  {
    var b, start := Final(existing, actions, now, norm), Opened(existing, norm);
    var keys, target := ConceptKeys(norm, a.note.problemID, a.note.title), Resolved(b, a.note, norm);
    ClaimsAll(existing, actions, now, norm);
    HolderClaims(b.byConcept, keys, a.note.id);
    VacatedIff(start, actions, now, norm, Holder(b.byConcept, keys, a.note.id));
    HeldAfter(b, a, now, norm);
    assert target in b.byID ==> b.byID.Keys + {target} == b.byID.Keys;
  }

  lemma HeldAfter(b: Book, a: Action, now: int, norm: Norm)
    requires a.op == Create || a.op == Update
    ensures Acted(b, a, now, norm).byID.Keys == b.byID.Keys + {Resolved(b, a.note, norm)}
  {
  }

  /** Such a stale claim is easily made: of two notes with the same concepts prune the first, and create a
      note about one of them under any id but the second's. The first note's id is back, and since it came
      first the second note is listed no more, although no prune reached it. */
  lemma StaleClaimDropsNote(x: Note, y: Note, prune: Action, write: Action, now: int, norm: Norm, key: string)
    requires x.id != "" && y.id != "" && x.id != y.id && KeysOf(norm, y) == KeysOf(norm, x)
    requires prune.op == Prune && prune.note.id == x.id
    requires (write.op == Create || write.op == Update) && write.note.id != y.id
    requires key in KeysOf(norm, y) && key in ConceptKeys(norm, write.note.problemID, write.note.title)
    ensures forall next: seq<Note> :: Lists(next, Final([x, y], [prune, write], now, norm), norm) ==>
      |next| == 1 && next[0].id == x.id
  {
    var mid, b := Pruned(x, y, norm), Final([x, y], [prune, write], now, norm);
    StaleBook(x, y, prune, write, now, norm, key);
    NewNoteFields(mid, x.id, write.note, now, norm);
    DistinctFirst(b, norm, x.id, y.id, key);
    forall next: seq<Note> | Lists(next, b, norm) ensures |next| == 1 && next[0].id == x.id {
      OneListed(b, norm, next);
    }
  }

  /** The book of the second note, with the first note's claims and order. */
  function Pruned(x: Note, y: Note, norm: Norm): Book {
    Book(map[y.id := y], ClaimedFirst(map[], KeysOf(norm, x), x.id), [x.id, y.id])
  }

  lemma StaleBook(x: Note, y: Note, prune: Action, write: Action, now: int, norm: Norm, key: string)
    requires x.id != "" && y.id != "" && x.id != y.id && KeysOf(norm, y) == KeysOf(norm, x)
    requires prune.op == Prune && prune.note.id == x.id
    requires (write.op == Create || write.op == Update) && write.note.id != y.id
    requires key in KeysOf(norm, y) && key in ConceptKeys(norm, write.note.problemID, write.note.title)
    ensures Final([x, y], [prune, write], now, norm) == NewNote(Pruned(x, y, norm), x.id, write.note, now, norm)
  {
    var start, mid := Opened([x, y], norm), Pruned(x, y, norm);
    OpenedTwo(x, y, norm);
    PrunedHeld(start, x.id, prune, now, norm);
    assert start.(byID := start.byID - {x.id}) == mid;
    ClaimedFirstKeys(map[], KeysOf(norm, x), x.id);
    ClaimantWritten(mid, x.id, write, now, norm, key);
    BothActed(start, prune, write, now, norm);
  }

  /** A note about claimed concepts goes to the claimant, held or not. */
  lemma ClaimantWritten(b: Book, x: string, write: Action, now: int, norm: Norm, key: string)
    requires x !in b.byID && write.note.id !in b.byID && (write.op == Create || write.op == Update)
    requires x != "" && forall k :: k in b.byConcept ==> b.byConcept[k] == x
    requires key in b.byConcept && key in ConceptKeys(norm, write.note.problemID, write.note.title)
    ensures Acted(b, write, now, norm) == NewNote(b, x, write.note, now, norm)
  {
    HolderClaims(b.byConcept, ConceptKeys(norm, write.note.problemID, write.note.title), write.note.id);
  }

  /** The book with a note made of the change alone. */
  function NewNote(b: Book, id: string, c: Change, now: int, norm: Norm): Book {
    var n := Written(Note(id, "", "", "", now, [], ""), c, now);
    Book(b.byID[id := n], Claimed(b.byConcept, KeysOf(norm, n), id), b.order + [id])
  }

  lemma PrunedHeld(b: Book, x: string, prune: Action, now: int, norm: Norm)
    requires x in b.byID && prune.op == Prune && prune.note.id == x
    ensures Acted(b, prune, now, norm) == b.(byID := b.byID - {x})
  {
  }

  lemma NewNoteFields(b: Book, x: string, c: Change, now: int, norm: Norm)
    ensures var after := NewNote(b, x, c, now, norm);
      && after.byID.Keys == b.byID.Keys + {x} && after.order == b.order + [x]
      && (forall id :: id in b.byID && id != x ==> after.byID[id] == b.byID[id])
      && after.byID[x].id == x && KeysOf(norm, after.byID[x]) == ConceptKeys(norm, c.problemID, c.title)
  {
  }

  lemma OneListed(b: Book, norm: Norm, next: seq<Note>)
    requires Lists(next, b, norm) && |Distinct(b.order, b.byID, norm)| == 1
    ensures next == Distinct(b.order, b.byID, norm)
  {
    var full := Sorted(next, b, norm);
    assert |multiset(full)| == |full|;
    assert full[0] in multiset(full);
  }

  lemma OpenedTwo(x: Note, y: Note, norm: Norm)
    requires x.id != "" && y.id != "" && x.id != y.id && KeysOf(norm, y) == KeysOf(norm, x)
    ensures Opened([x, y], norm)
         == Book(map[x.id := x, y.id := y], ClaimedFirst(map[], KeysOf(norm, x), x.id), [x.id, y.id])
  {
    var claims := ClaimedFirst(map[], KeysOf(norm, x), x.id);
    OpenedOne(x, norm);
    assert [x, y][..1] == [x] && [x][..0] == [];
    assert Opened([x], norm) == Book(map[x.id := x], claims, [x.id]);
    ClaimedFirstKeys(map[], KeysOf(norm, x), x.id);
    ClaimedAgain(claims, KeysOf(norm, y), y.id);
    assert Opened([x, y], norm) == Entered(Opened([x], norm), y, norm);
  }

  lemma {:induction false} ClaimedAgain(byConcept: ByConcept, keys: seq<string>, id: string)
    requires forall key :: key in keys ==> key in byConcept
    ensures ClaimedFirst(byConcept, keys, id) == byConcept
  {
    if keys != [] {
      ClaimedAgain(byConcept, keys[..|keys| - 1], id);
    }
  }

  lemma DistinctFirst(b: Book, norm: Norm, x: string, y: string, key: string)
    requires b.order == [x, y] + [x] && b.byID.Keys == {x, y} && x != y
    requires key in KeysOf(norm, b.byID[x]) && key in KeysOf(norm, b.byID[y])
    ensures Distinct(b.order, b.byID, norm) == [b.byID[x]]
  {
    var list := [b.byID[x]];
    assert [x, y, x][..2] == [x, y] && [x, y][..1] == [x] && [x][..0] == [];
    assert Distinct([x], b.byID, norm) == list;
    assert Meets(norm, list[0], b.byID[y]) && Meets(norm, list[0], b.byID[x]);
  }
}
