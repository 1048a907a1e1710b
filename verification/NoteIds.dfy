/** When the ids that ApplyNoteActions lists are unique, said of the actions it is given. */
module NoteIds {
  import opened NoteActions
  import opened Notes
  import opened Options
  import opened Ranking
  import opened Sequences
  import opened Sums

  predicate DistinctIds(list: seq<Note>) {
    forall i, j :: 0 <= i < j < |list| ==> list[i].id != list[j].id
  }

  // ---- on the actions ----

  /** Action i prunes the note with this id, which is there to be pruned. */
  predicate PrunesHeld(b: Book, actions: seq<Action>, now: int, norm: Norm, id: string, i: int) {
    0 <= i < |actions| && actions[i].op == Prune &&
    var before := ActedAll(b, actions[..i], now, norm);
    Resolved(before, actions[i].note, norm) == id && id in before.byID
  }

  /** Action j creates or updates the note with this id. */
  predicate WritesTo(b: Book, actions: seq<Action>, now: int, norm: Norm, id: string, j: int) {
    0 <= j < |actions| && Reaches(ActedAll(b, actions[..j], now, norm), actions[j], norm, id)
  }

  ghost predicate EverPruned(b: Book, actions: seq<Action>, now: int, norm: Norm, id: string) {
    exists i :: PrunesHeld(b, actions, now, norm, id, i)
  }

  /** The note is pruned, and later written again. */
  ghost predicate Revived(b: Book, actions: seq<Action>, now: int, norm: Norm, id: string) {
    exists i, j :: i < j && PrunesHeld(b, actions, now, norm, id, i) && WritesTo(b, actions, now, norm, id, j)
  }

  /** How many notes of the list rank before n. */
  function AheadOf(n: Note): Note -> int {
    (m: Note) => if Before(NoteRank()(m), NoteRank()(n)) then 1 else 0
  }

  /** The changes made to a note since an action brought it back from its last prune; none while it is away, or
      if it was never pruned. */
  ghost function ChangesSince(b: Book, actions: seq<Action>, now: int, norm: Norm, id: string): Option<seq<Change>> {
    if actions == [] then None
    else
      var front, last := actions[..|actions| - 1], actions[|actions| - 1];
      var mid, before := ActedAll(b, front, now, norm), ChangesSince(b, front, now, norm, id);
      if last.op == Prune && Resolved(mid, last.note, norm) == id then None
      else if !Reaches(mid, last, norm, id) then before
      else if id in mid.byID then if before.Some? then Some(before.value + [last.note]) else None
      else if EverPruned(b, front, now, norm, id) then Some([last.note])
      else None
  }

  /** No concept: the last problem id and the last title that the changes set normalize to nothing. */
  predicate Bare(changes: seq<Change>, norm: Norm) {
    ConceptKeys(norm, LastSet(changes, ProblemOf, ""), LastSet(changes, TitleOf, "")) == []
  }

  ghost predicate EndsBare(b: Book, actions: seq<Action>, now: int, norm: Norm, id: string) {
    var changes := ChangesSince(b, actions, now, norm, id);
    changes.Some? && Bare(changes.value, norm)
  }

  /** The note is brought back by some action, is left without a concept by that and the later ones, and at
      most 18 of the distinct notes rank before it, so that two copies make the cut. */
  ghost predicate Doubles(existing: seq<Note>, actions: seq<Action>, now: int, norm: Norm, id: string) {
    var b := Final(existing, actions, now, norm);
    && EndsBare(Opened(existing, norm), actions, now, norm, id)
    && id in b.byID && Total(Distinct(b.order, b.byID, norm), AheadOf(b.byID[id])) <= 18
  }

  // ---- how often an id comes ----

  lemma FrontPrunes(b: Book, front: seq<Action>, last: Action, now: int, norm: Norm, id: string, i: int)
    ensures i < |front| ==>
      (PrunesHeld(b, front + [last], now, norm, id, i) <==> PrunesHeld(b, front, now, norm, id, i))
    ensures i < |front| ==> (WritesTo(b, front + [last], now, norm, id, i) <==> WritesTo(b, front, now, norm, id, i))
  {
    if 0 <= i < |front| {
      assert (front + [last])[..i] == front[..i];
    }
  }

  lemma LastActs(b: Book, front: seq<Action>, last: Action, now: int, norm: Norm, id: string)
    ensures var mid := ActedAll(b, front, now, norm);
      && (PrunesHeld(b, front + [last], now, norm, id, |front|) <==>
            last.op == Prune && Resolved(mid, last.note, norm) == id && id in mid.byID)
      && (WritesTo(b, front + [last], now, norm, id, |front|) <==> Reaches(mid, last, norm, id))
  {
    assert (front + [last])[..|front|] == front;
  }

  lemma PrunedNext(b: Book, front: seq<Action>, last: Action, now: int, norm: Norm, id: string)
    ensures EverPruned(b, front + [last], now, norm, id) <==>
      EverPruned(b, front, now, norm, id) || PrunesHeld(b, front + [last], now, norm, id, |front|)
  {
    var all := front + [last];
    if i :| PrunesHeld(b, all, now, norm, id, i) {
      FrontPrunes(b, front, last, now, norm, id, i);
    }
    if i :| PrunesHeld(b, front, now, norm, id, i) {
      FrontPrunes(b, front, last, now, norm, id, i);
      assert PrunesHeld(b, all, now, norm, id, i);
    }
  }

  lemma RevivedNext(b: Book, front: seq<Action>, last: Action, now: int, norm: Norm, id: string)
    ensures Revived(b, front + [last], now, norm, id) <==>
      || Revived(b, front, now, norm, id)
      || (EverPruned(b, front, now, norm, id) && WritesTo(b, front + [last], now, norm, id, |front|))
  {
    var all := front + [last];
    if i, j :| i < j && PrunesHeld(b, all, now, norm, id, i) && WritesTo(b, all, now, norm, id, j) {
      FrontPrunes(b, front, last, now, norm, id, i);
      FrontPrunes(b, front, last, now, norm, id, j);
    }
    if i, j :| i < j && PrunesHeld(b, front, now, norm, id, i) && WritesTo(b, front, now, norm, id, j) {
      FrontPrunes(b, front, last, now, norm, id, i);
      FrontPrunes(b, front, last, now, norm, id, j);
      assert PrunesHeld(b, all, now, norm, id, i) && WritesTo(b, all, now, norm, id, j);
    }
    if i :| PrunesHeld(b, front, now, norm, id, i) {
      FrontPrunes(b, front, last, now, norm, id, i);
      assert PrunesHeld(b, all, now, norm, id, i);
    }
  }

  /** How often an id has come, by what has happened to it. */
  ghost predicate Accounted(b: Book, actions: seq<Action>, now: int, norm: Norm, id: string) {
    var end := ActedAll(b, actions, now, norm);
    var times, pruned := multiset(end.order)[id], EverPruned(b, actions, now, norm, id);
    && (times > 1 <==> Revived(b, actions, now, norm, id))
    && (id in end.byID ==> times >= 1 && (pruned ==> times > 1))
    && (id !in end.byID ==> (times >= 1 <==> pruned))
  }

  /** What one action does to one id. */
  lemma OneAction(b: Book, a: Action, now: int, norm: Norm, id: string)
    ensures var after := Acted(b, a, now, norm);
      && (id in after.byID <==>
            Reaches(b, a, norm, id) || (id in b.byID && !(a.op == Prune && Resolved(b, a.note, norm) == id)))
      && multiset(after.order)[id] == multiset(b.order)[id] + if Reaches(b, a, norm, id) && id !in b.byID then 1 else 0
  {
  }

  lemma {:induction false} AccountedAll(b: Book, actions: seq<Action>, now: int, norm: Norm, id: string)
    requires multiset(b.order)[id] == if id in b.byID then 1 else 0
    ensures Accounted(b, actions, now, norm, id)
  {
    if actions != [] {
      var front, last := actions[..|actions| - 1], actions[|actions| - 1];
      SplitLast(actions);
      AccountedAll(b, front, now, norm, id);
      PrunedNext(b, front, last, now, norm, id);
      RevivedNext(b, front, last, now, norm, id);
      LastActs(b, front, last, now, norm, id);
      OneAction(ActedAll(b, front, now, norm), last, now, norm, id);
    }
  }

  /** An id comes twice exactly when a prune takes its note away and a later action writes it again. */
  lemma TwiceIffRevived(existing: seq<Note>, actions: seq<Action>, now: int, norm: Norm, id: string)
    ensures multiset(Final(existing, actions, now, norm).order)[id] > 1 <==>
      Revived(Opened(existing, norm), actions, now, norm, id)
  {
    OpenedOnce(existing, norm, id);
    AccountedAll(Opened(existing, norm), actions, now, norm, id);
  }

  // ---- a note that is brought back ----

  /** It is held at the end, with the fields that were set since. */
  ghost predicate BroughtBack(b: Book, actions: seq<Action>, now: int, norm: Norm, id: string) {
    var end, changes := ActedAll(b, actions, now, norm).byID, ChangesSince(b, actions, now, norm, id);
    && (changes.Some? <==> EverPruned(b, actions, now, norm, id) && id in end)
    && (changes.Some? ==>
          && end[id].problemID == LastSet(changes.value, ProblemOf, "")
          && end[id].title == LastSet(changes.value, TitleOf, ""))
  }

  lemma {:induction false} BroughtBackAll(b: Book, actions: seq<Action>, now: int, norm: Norm, id: string)
    ensures BroughtBack(b, actions, now, norm, id)
  {
    if actions != [] {
      var front, last := actions[..|actions| - 1], actions[|actions| - 1];
      SplitLast(actions);
      BroughtBackAll(b, front, now, norm, id);
      BroughtBackNext(b, front, last, now, norm, id);
    }
  }

  lemma BroughtBackNext(b: Book, front: seq<Action>, last: Action, now: int, norm: Norm, id: string)
    requires BroughtBack(b, front, now, norm, id)
    ensures BroughtBack(b, front + [last], now, norm, id)
  {
    var before := ChangesSince(b, front, now, norm, id);
    assert (front + [last])[..|front|] == front;
    PrunedNext(b, front, last, now, norm, id);
    LastActs(b, front, last, now, norm, id);
    OneAction(ActedAll(b, front, now, norm), last, now, norm, id);
    var changes := if before.Some? then before.value else [];
    LastSetNext(changes, last.note, ProblemOf, "");
    LastSetNext(changes, last.note, TitleOf, "");
  }

  /** So a note ends bare exactly when it was pruned, written again and is left without a concept. */
  lemma EndsBareIff(b: Book, actions: seq<Action>, now: int, norm: Norm, id: string)
    requires multiset(b.order)[id] == if id in b.byID then 1 else 0
    ensures var end := ActedAll(b, actions, now, norm).byID;
      EndsBare(b, actions, now, norm, id) <==>
      Revived(b, actions, now, norm, id) && id in end && KeysOf(norm, end[id]) == []
  {
    AccountedAll(b, actions, now, norm, id);
    BroughtBackAll(b, actions, now, norm, id);
  }

  lemma FinalBareIff(existing: seq<Note>, actions: seq<Action>, now: int, norm: Norm, id: string)
    ensures var b := Final(existing, actions, now, norm);
      EndsBare(Opened(existing, norm), actions, now, norm, id) <==>
      Revived(Opened(existing, norm), actions, now, norm, id) && id in b.byID && KeysOf(norm, b.byID[id]) == []
  {
    OpenedOnce(existing, norm, id);
    EndsBareIff(Opened(existing, norm), actions, now, norm, id);
  }

  // ---- where copies stand in the result ----

  lemma NotesOfList(b: Book, norm: Norm, full: seq<Note>)
    requires BookOK(b) && multiset(full) == multiset(Distinct(b.order, b.byID, norm))
    ensures forall x :: x in full ==> x.id in b.byID && b.byID[x.id] == x
    ensures RankDetermines(full, NoteRank())
  {
    forall x | x in full ensures x.id in b.byID && b.byID[x.id] == x {
      assert x in multiset(full);
      DistinctComes(b.order, b.byID, norm, x);
    }
  }

  /** The first copy of a note stands right behind the notes that rank before it. */
  lemma FirstPlace(full: seq<Note>, n: Note, k: nat)
    requires WeaklyRanked(full, NoteRank()) && RankDetermines(full, NoteRank())
    requires k < |full| && full[k] == n && n !in full[..k]
    ensures Total(full, AheadOf(n)) == k
  {
    forall i | 0 <= i < |full| ensures AheadOf(n)(full[i]) == if i < k then 1 else 0 {
      StandsAhead(full, n, k, i);
    }
    TotalOfOnes(full, AheadOf(n), k);
  }

  lemma StandsAhead(full: seq<Note>, n: Note, k: nat, i: nat)
    requires WeaklyRanked(full, NoteRank()) && RankDetermines(full, NoteRank())
    requires k < |full| && full[k] == n && n !in full[..k] && i < |full|
    ensures AheadOf(n)(full[i]) == if i < k then 1 else 0
  {
    var x := full[i];
    assert x in full && n in full;
    BeforeStrictTotal(NoteRank()(x), NoteRank()(n), NoteRank()(x));
    if i < k {
      assert full[..k][i] == x;
    }
  }

  /** Copies of one note stand together. */
  lemma CopiesTogether(full: seq<Note>, k: nat, j: nat)
    requires WeaklyRanked(full, NoteRank()) && RankDetermines(full, NoteRank())
    requires k < j < |full| && full[k] == full[j]
    ensures full[k + 1] == full[k]
  {
    if k + 1 < j {
      var x := full[k + 1];
      assert x in full && full[k] in full;
      BeforeStrictTotal(NoteRank()(x), NoteRank()(full[k]), NoteRank()(x));
    }
  }

  lemma {:induction false} FirstOccurrence(full: seq<Note>, n: Note) returns (k: nat)
    requires n in full
    ensures k < |full| && full[k] == n && n !in full[..k]
    ensures forall i :: 0 <= i < |full| && full[i] == n ==> k <= i
  {
    if full[0] == n {
      k := 0;
    } else {
      var j := FirstOccurrence(full[1..], n);
      k := j + 1;
      assert full[..k] == [full[0]] + full[1..][..j];
    }
  }

  lemma ListedTwiceDoubles(
    existing: seq<Note>, actions: seq<Action>, now: int, norm: Norm, next: seq<Note>, i: nat, j: nat)
    requires Lists(next, Final(existing, actions, now, norm), norm)
    requires i < j < |next| && next[i].id == next[j].id
    ensures Doubles(existing, actions, now, norm, next[i].id)
  {
    var b := Final(existing, actions, now, norm);
    var list, n := Distinct(b.order, b.byID, norm), next[i];
    var full := Sorted(next, b, norm);
    FinalOK(existing, actions, now, norm);
    NotesOfList(b, norm, full);
    assert full[i] == n && full[j] == next[j] && full[i] in full && full[j] in full;
    var p, q := PairBack(list, full, i, j);
    DistinctDisjoint(b.order, b.byID, norm);
    MeetsItself(norm, n);
    DistinctCount(b.order, b.byID, norm, n);
    TwoCopies(full, i, j);
    TwiceIffRevived(existing, actions, now, norm, n.id);
    FinalBareIff(existing, actions, now, norm, n.id);
    var k := FirstOccurrence(full, n);
    FirstPlace(full, n, k);
    TotalRearranged(list, full, AheadOf(n));
  }

  /** A doubled note is among the distinct ones more than once. */
  lemma DoublesCount(existing: seq<Note>, actions: seq<Action>, now: int, norm: Norm, id: string)
    requires Doubles(existing, actions, now, norm, id)
    ensures var b := Final(existing, actions, now, norm);
      id in b.byID && b.byID[id].id == id && multiset(Distinct(b.order, b.byID, norm))[b.byID[id]] > 1
  {
    var b := Final(existing, actions, now, norm);
    FinalOK(existing, actions, now, norm);
    TwiceIffRevived(existing, actions, now, norm, id);
    FinalBareIff(existing, actions, now, norm, id);
    DistinctCount(b.order, b.byID, norm, b.byID[id]);
  }

  lemma DoublesListedTwice(
    existing: seq<Note>, actions: seq<Action>, now: int, norm: Norm, next: seq<Note>, id: string) returns (k: nat)
    requires Lists(next, Final(existing, actions, now, norm), norm)
    requires Doubles(existing, actions, now, norm, id)
    ensures k + 1 < |next| && next[k].id == id && next[k + 1].id == id
  {
    var b := Final(existing, actions, now, norm);
    var full := Sorted(next, b, norm);
    DoublesCount(existing, actions, now, norm, id);
    FinalOK(existing, actions, now, norm);
    k := CopiesInFront(b, norm, full, b.byID[id]);
  }

  /** Two copies of a note are next to each other, right behind those that rank before it. */
  lemma CopiesInFront(b: Book, norm: Norm, full: seq<Note>, n: Note) returns (k: nat)
    requires BookOK(b) && WeaklyRanked(full, NoteRank())
    requires multiset(full) == multiset(Distinct(b.order, b.byID, norm)) && multiset(full)[n] > 1
    ensures k + 1 < |full| && full[k] == n && full[k + 1] == n
    ensures k == Total(Distinct(b.order, b.byID, norm), AheadOf(n))
  {
    NotesOfList(b, norm, full);
    var i, j := TwoPlaces(full, n);
    k := FirstOccurrence(full, n);
    CopiesTogether(full, k, j);
    FirstPlace(full, n, k);
    TotalRearranged(Distinct(b.order, b.byID, norm), full, AheadOf(n));
  }

  // ---- the promises ----

  /** Exactly when listed ids are unique: no note is pruned, brought back by a later action, left without a
      concept by the changes since, and ranked so that two copies of it are among the first 20. */
  lemma UniqueIdsIff(existing: seq<Note>, actions: seq<Action>, now: int, norm: Norm, next: seq<Note>)
    requires Lists(next, Final(existing, actions, now, norm), norm)
    ensures DistinctIds(next) <==> forall id :: !Doubles(existing, actions, now, norm, id)
  {
    forall i, j | 0 <= i < j < |next| && next[i].id == next[j].id
      ensures Doubles(existing, actions, now, norm, next[i].id)
    {
      ListedTwiceDoubles(existing, actions, now, norm, next, i, j);
    }
    forall id | Doubles(existing, actions, now, norm, id) ensures !DistinctIds(next) {
      var k := DoublesListedTwice(existing, actions, now, norm, next, id);
    }
  }

  /** Actions that prune nothing leave ids unique. */
  lemma UniqueWithoutPrunes(existing: seq<Note>, actions: seq<Action>, now: int, norm: Norm, next: seq<Note>)
    requires Lists(next, Final(existing, actions, now, norm), norm)
    requires forall i :: 0 <= i < |actions| ==> actions[i].op != Prune
    ensures DistinctIds(next)
  {
    UniqueIdsIff(existing, actions, now, norm, next);
    forall id ensures !Doubles(existing, actions, now, norm, id) {
      FinalBareIff(existing, actions, now, norm, id);
    }
  }

  /** The note is about some concept. */
  predicate HasConcept(norm: Norm, problemID: string, title: string) {
    norm(problemID) != "" || norm(title) != ""
  }

  /** Every create and update says which concept it is about. */
  predicate NamesConcepts(actions: seq<Action>, norm: Norm) {
    forall i :: 0 <= i < |actions| && (actions[i].op == Create || actions[i].op == Update) ==>
      HasConcept(norm, actions[i].note.problemID, actions[i].note.title)
  }

  predicate IsKeyed(b: Book, norm: Norm, id: string) {
    id in b.byID ==> HasConcept(norm, b.byID[id].problemID, b.byID[id].title)
  }

  /** A note that was ever written by such actions has a concept from then on. */
  lemma {:induction false} WrittenKeyed(b: Book, actions: seq<Action>, now: int, norm: Norm, id: string, j: int)
    requires NamesConcepts(actions, norm) && norm("") == "" && WritesTo(b, actions, now, norm, id, j)
    ensures IsKeyed(ActedAll(b, actions, now, norm), norm, id)
  {
    var front, last := actions[..|actions| - 1], actions[|actions| - 1];
    SplitLast(actions);
    var mid := ActedAll(b, front, now, norm);
    LastActs(b, front, last, now, norm, id);
    if j < |front| {
      FrontPrunes(b, front, last, now, norm, id, j);
      WrittenKeyed(b, front, now, norm, id, j);
    }
    assert Reaches(mid, last, norm, id) ==> HasConcept(norm, last.note.problemID, last.note.title);
    KeyedNext(mid, last, now, norm, id);
  }

  lemma KeyedNext(b: Book, a: Action, now: int, norm: Norm, id: string)
    requires norm("") == ""
    requires Reaches(b, a, norm, id) ==> HasConcept(norm, a.note.problemID, a.note.title)
    requires Reaches(b, a, norm, id) || IsKeyed(b, norm, id)
    ensures IsKeyed(Acted(b, a, now, norm), norm, id)
  {
  }

  /** A condition on the actions alone: when every create and update sets a title or a problem id that
      normalizes to something, ids are unique, whatever is pruned and whatever was there before. */
  lemma UniqueWhenConceptsNamed(existing: seq<Note>, actions: seq<Action>, now: int, norm: Norm, next: seq<Note>)
    requires Lists(next, Final(existing, actions, now, norm), norm)
    requires NamesConcepts(actions, norm) && norm("") == ""
    ensures DistinctIds(next)
  {
    forall id | Doubles(existing, actions, now, norm, id) ensures false {
      var b := Opened(existing, norm);
      FinalBareIff(existing, actions, now, norm, id);
      var i, j :| i < j && PrunesHeld(b, actions, now, norm, id, i) && WritesTo(b, actions, now, norm, id, j);
      WrittenKeyed(b, actions, now, norm, id, j);
    }
    UniqueIdsIff(existing, actions, now, norm, next);
  }

  /** It cannot be weakened to the notes there were before: pruning any note and writing its id again
      without a concept lists that id twice, concepts of the pruned note or not. */
  lemma PruneThenWriteDoubles(n: Note, prune: Action, write: Action, now: int, norm: Norm)
    requires n.id != "" && prune.op == Prune && prune.note.id == n.id
    requires (write.op == Create || write.op == Update) && write.note.id == n.id
    requires ConceptKeys(norm, write.note.problemID, write.note.title) == []
    ensures forall next :: Lists(next, Final([n], [prune, write], now, norm), norm) ==> !DistinctIds(next)
  {
    var start, b := Opened([n], norm), Final([n], [prune, write], now, norm);
    var mid := Acted(start, prune, now, norm);
    OpenedOne(n, norm);
    PrunedOne(start, prune, now, norm, n.id);
    WrittenOne(mid, write, now, norm);
    BothActed(start, prune, write, now, norm);
    forall next | Lists(next, b, norm) ensures !DistinctIds(next) {
      TwoListed(b, norm, n.id, next);
    }
  }

  lemma BothActed(b: Book, a1: Action, a2: Action, now: int, norm: Norm)
    ensures ActedAll(b, [a1, a2], now, norm) == Acted(Acted(b, a1, now, norm), a2, now, norm)
  {
    ActedOne(b, a1, now, norm);
    ActedNext(b, [a1], a2, now, norm);
    assert [a1] + [a2] == [a1, a2];
  }

  lemma OpenedOne(n: Note, norm: Norm)
    requires n.id != ""
    ensures Opened([n], norm).byID == map[n.id := n] && Opened([n], norm).order == [n.id]
  {
    assert [n][..0] == [];
    assert [] + [n.id] == [n.id];
  }

  lemma PrunedOne(b: Book, prune: Action, now: int, norm: Norm, id: string)
    requires b.byID.Keys == {id} && b.order == [id] && prune.op == Prune && prune.note.id == id
    ensures Acted(b, prune, now, norm).byID == map[] && Acted(b, prune, now, norm).order == [id]
  {
  }

  lemma WrittenOne(b: Book, write: Action, now: int, norm: Norm)
    requires b.byID == map[] && (write.op == Create || write.op == Update)
    requires ConceptKeys(norm, write.note.problemID, write.note.title) == []
    ensures var after, id := Acted(b, write, now, norm), write.note.id;
      && after.byID.Keys == {id} && after.order == b.order + [id]
      && after.byID[id].id == id && KeysOf(norm, after.byID[id]) == []
  {
  }

  lemma TwoListed(b: Book, norm: Norm, id: string, next: seq<Note>)
    requires b.order == [id] + [id] && b.byID.Keys == {id} && b.byID[id].id == id && KeysOf(norm, b.byID[id]) == []
    requires Lists(next, b, norm)
    ensures !DistinctIds(next)
  {
    DistinctCount(b.order, b.byID, norm, b.byID[id]);
    DistinctLength(b.order, b.byID, norm);
    var full := Sorted(next, b, norm);
    assert |multiset(full)| == |full|;
    var i, j := TwoPlaces(full, b.byID[id]);
  }

  lemma {:induction false} DistinctLength(order: seq<string>, byID: ByID, norm: Norm)
    ensures |Distinct(order, byID, norm)| <= |order|
  {
    if order != [] {
      DistinctLength(order[..|order| - 1], byID, norm);
    }
  }
}
