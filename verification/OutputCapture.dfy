/** The supervisor's capture of one output pipe: CappedBuffer keeps the first `cap` bytes and looks for
    out-of-memory messages in everything that passes, chunk by chunk. A byte stands as the character
    with its code. */
module OutputCapture {
  const MARKERS: seq<string> :=
    ["memoryerror", "cannot allocate memory", "out of memory", "std::bad_alloc", "allocation failed"]

  const TAIL: nat := 64

  /** No marker is longer than this. */
  const LONGEST: nat := 22

  /** bytes.lower(): ASCII letters only. */
  function LowerByte(b: char): char {
    if 'A' <= b <= 'Z' then b - 'A' + 'a' else b
  }

  function Lower(s: string): (r: string)
    ensures |r| == |s|
  {
    seq(|s|, i requires 0 <= i < |s| => LowerByte(s[i]))
  }

  predicate At(part: string, whole: string, i: int) {
    0 <= i <= |whole| - |part| && whole[i..i + |part|] == part
  }

  /** `part in whole` on byte strings. */
  predicate Occurs(part: string, whole: string) {
    exists i :: 0 <= i <= |whole| && At(part, whole, i)
  }

  predicate HasMarker(text: string) {
    exists k :: 0 <= k < |MARKERS| && Occurs(MARKERS[k], text)
  }

  /** text[-n:] */
  function Last(text: string, n: nat): string {
    if |text| > n then text[|text| - n..] else text
  }

  /** The first `cap` bytes; a cap below zero keeps nothing. */
  function Kept(text: string, cap: int): string {
    if cap <= 0 then [] else if |text| > cap then text[..cap] else text
  }

  predicate Longer(text: string, cap: int) {
    |text| > 0 && |text| > cap
  }

  /** What a reader gets from a stream: reads up to the first empty one, which marks the end. */
  function Received(chunks: seq<string>): string {
    if chunks == [] || chunks[0] == [] then [] else chunks[0] + Received(chunks[1..])
  }

  class CappedBuffer {
    const cap: int
    var data: string
    var scanTail: string
    var truncated: bool
    var sawMemoryError: bool
    ghost var seen: string

    /** The fields say of everything seen so far what they are meant to say, with no trace of the chunks. */
    ghost predicate Valid()
      reads this
    {
      && data == Kept(seen, cap)
      && scanTail == Last(Lower(seen), TAIL)
      && (truncated <==> Longer(seen, cap))
      && (sawMemoryError <==> HasMarker(Lower(seen)))
    }

    constructor (cap: int)
      ensures Valid() && seen == [] && this.cap == cap
    {
      this.cap := cap;
      data, scanTail, truncated, sawMemoryError, seen := [], [], false, false, [];
      new;
      NoMarkerInNothing();
    }

    method Consume(chunks: seq<string>)
      requires Valid()
      modifies this
      ensures Valid() && seen == old(seen) + Received(chunks)
    {
      var n := 0;
      while n < |chunks|
        invariant n <= |chunks|
        invariant Valid() && seen + Received(chunks[n..]) == old(seen) + Received(chunks)
      {
        if chunks[n] == [] {
          return;
        }
        assert seen + (chunks[n] + Received(chunks[n + 1..])) == (seen + chunks[n]) + Received(chunks[n + 1..]);
        Absorb(chunks[n]);
        n := n + 1;
      }
    }

    /** One pass of the loop. */
    method Absorb(chunk: string)
      requires Valid() && chunk != []
      modifies this
      ensures Valid() && seen == old(seen) + chunk
    {
      ChunkAbsorbed(seen, chunk, cap);
      var scan := scanTail + Lower(chunk);
      if HasMarker(scan) {
        sawMemoryError := true;
      }
      scanTail := Last(scan, TAIL);
      var remaining := cap - |data|;
      if remaining > 0 {
        data := data + Kept(chunk, remaining);
      }
      if |chunk| > remaining {
        truncated := true;
      }
      seen := seen + chunk;
    }
  }

  /** What a chunk adds to each of the four answers about the bytes seen. */
  lemma ChunkAbsorbed(seen: string, chunk: string, cap: int)
    requires chunk != []
    ensures var remaining := cap - |Kept(seen, cap)|;
      && Kept(seen + chunk, cap) == Kept(seen, cap) + Kept(chunk, remaining)
      && (Longer(seen + chunk, cap) <==> Longer(seen, cap) || |chunk| > remaining)
    ensures var scan := Last(Lower(seen), TAIL) + Lower(chunk);
      && Last(Lower(seen + chunk), TAIL) == Last(scan, TAIL)
      && (HasMarker(Lower(seen + chunk)) <==> HasMarker(Lower(seen)) || HasMarker(scan))
  {
    LowerAppend(seen, chunk);
    ScanSeesSplit(Lower(seen), Lower(chunk), TAIL);
    TailOfTail(Lower(seen), Lower(chunk), TAIL);
  }

  /** One pipe read to its end: the outcome depends on the bytes alone, not on how they were chunked. */
  method CapturePipe(chunks: seq<string>, cap: int) returns (data: string, truncated: bool, sawMemoryError: bool)
    ensures data == Kept(Received(chunks), cap)
    ensures truncated <==> Longer(Received(chunks), cap)
    ensures sawMemoryError <==> HasMarker(Lower(Received(chunks)))
  {
    var buffer := new CappedBuffer(cap);
    buffer.Consume(chunks);
    assert buffer.seen == Received(chunks);
    data, truncated, sawMemoryError := buffer.data, buffer.truncated, buffer.sawMemoryError;
  }

  lemma NoMarkerInNothing()
    ensures !HasMarker([])
  {
    forall k | 0 <= k < |MARKERS| ensures |MARKERS[k]| > 0 {
      MarkerLength(k);
    }
  }

  lemma MarkerLength(k: nat)
    requires k < |MARKERS|
    ensures 0 < |MARKERS[k]| <= LONGEST
  {
  }

  lemma LowerAppend(a: string, b: string)
    ensures Lower(a + b) == Lower(a) + Lower(b)
  {
  }

  lemma TailOfTail(a: string, b: string, n: nat)
    ensures Last(Last(a, n) + b, n) == Last(a + b, n)
  {
  }

  lemma OccursAppend(part: string, a: string, b: string)
    ensures Occurs(part, a) ==> Occurs(part, a + b)
    ensures Occurs(part, b) ==> Occurs(part, a + b)
  {
    var whole := a + b;
    if Occurs(part, a) {
      var i :| 0 <= i <= |a| && At(part, a, i);
      assert whole[i..i + |part|] == part;
      assert At(part, whole, i);
    }
    if Occurs(part, b) {
      var i :| 0 <= i <= |b| && At(part, b, i);
      assert whole[|a| + i..|a| + i + |part|] == part;
      assert At(part, whole, |a| + i);
    }
  }

  /** A part that is in `a + b` is in `a`, or in `b` with all but its last byte's room from the end of `a`. */
  lemma OccursSplit(part: string, a: string, b: string, n: nat)
    requires 0 < |part| <= n + 1
    ensures Occurs(part, a + b) <==> Occurs(part, a) || Occurs(part, Last(a, n) + b)
  {
    var whole, tail := a + b, Last(a, n);
    OccursAppend(part, a, b);
    var cut := |a| - |tail|;
    assert whole == a[..cut] + (tail + b);
    OccursAppend(part, a[..cut], tail + b);
    if Occurs(part, whole) {
      var i :| 0 <= i <= |whole| && At(part, whole, i);
      if i + |part| <= |a| {
        assert a[i..i + |part|] == part;
        assert At(part, a, i);
      } else {
        assert (tail + b)[i - cut..i - cut + |part|] == part;
        assert At(part, tail + b, i - cut);
      }
    }
  }

  /** Scanning each chunk behind the last `n` bytes before it finds every marker, for any n >= 21. */
  lemma ScanSeesSplit(before: string, chunk: string, n: nat)
    requires n >= LONGEST - 1
    ensures HasMarker(before + chunk) <==> HasMarker(before) || HasMarker(Last(before, n) + chunk)
  {
    forall k | 0 <= k < |MARKERS|
      ensures Occurs(MARKERS[k], before + chunk) <==>
        Occurs(MARKERS[k], before) || Occurs(MARKERS[k], Last(before, n) + chunk)
    {
      MarkerLength(k);
      OccursSplit(MARKERS[k], before, chunk, n);
    }
  }

  /** 21 bytes of tail are necessary: with fewer, a marker cut before its last byte is missed. */
  lemma ShorterTailMisses(n: nat) returns (before: string, chunk: string)
    requires n < LONGEST - 1
    ensures HasMarker(before + chunk) && !HasMarker(before) && !HasMarker(Last(before, n) + chunk)
  {
    before, chunk := "cannot allocate memor", "y";
    var whole := before + chunk;
    assert whole == MARKERS[1];
    assert At(MARKERS[1], whole, 0);
    Missed(before, whole, 0, 21);
    Missed(Last(before, n) + chunk, whole, 21 - n, 22);
  }

  /** No proper part of "cannot allocate memory" holds a marker. */
  lemma Missed(piece: string, whole: string, from: nat, to: nat)
    requires whole == MARKERS[1] && from <= to <= |whole| && to - from < |whole|
    requires piece == whole[from..to]
    ensures !HasMarker(piece)
  {
    forall k, i | 0 <= k < |MARKERS| ensures !At(MARKERS[k], piece, i) {
      AtInside(MARKERS[k], whole, from, to, i);
      if k != 1 {
        NoOtherMarker(whole, k, from + i);
      }
    }
  }

  lemma AtInside(part: string, whole: string, from: nat, to: nat, i: int)
    requires from <= to <= |whole|
    ensures At(part, whole[from..to], i) ==> At(part, whole, from + i) && |part| <= to - from
  {
    if At(part, whole[from..to], i) {
      var piece := whole[from..to];
      var inner, outer := piece[i..i + |part|], whole[from + i..from + i + |part|];
      forall j | 0 <= j < |inner| ensures inner[j] == outer[j] {
        assert inner[j] == piece[i + j] == whole[from + (i + j)];
      }
      assert inner == outer;
    }
  }

  /** Told apart by three bytes. */
  lemma NoOtherMarker(whole: string, k: nat, i: int)
    requires whole == MARKERS[1] && k < |MARKERS| && k != 1
    ensures !At(MARKERS[k], whole, i)
  {
    var m := MARKERS[k];
    if 0 <= i <= |whole| - |m| {
      var slice := whole[i..i + |m|];
      assert slice[0] == whole[i] && slice[1] == whole[i + 1] && slice[2] == whole[i + 2];
      assert !(whole[i] == m[0] && whole[i + 1] == m[1] && whole[i + 2] == m[2]);
    }
  }

  // ---- what is kept and reported, on the bytes themselves ----

  /** The kept bytes begin the stream, as many as the cap allows, and it is truncated exactly if that is not
      all of it. */
  lemma KeptIs(stream: string, cap: int)
    ensures var kept := Kept(stream, cap);
      && kept <= stream && |kept| <= (if cap > 0 then cap else 0)
      && (kept != stream <==> Longer(stream, cap))
      && (kept != stream ==> |kept| == if cap > 0 then cap else 0)
  {
  }

  /** Reads are put together in their order, up to the first empty one. */
  lemma {:induction false} ReceivedIs(pieces: seq<string>, next: string, later: seq<string>)
    requires forall i :: 0 <= i < |pieces| ==> pieces[i] != []
    ensures Received(pieces + ([next] + later))
      == Received(pieces) + if next == [] then [] else next + Received(later)
  {
    if pieces == [] {
      assert pieces + ([next] + later) == [next] + later;
    } else {
      assert pieces + ([next] + later) == [pieces[0]] + (pieces[1..] + ([next] + later));
      ReceivedIs(pieces[1..], next, later);
    }
  }

  /** How the interpreter, the allocators and the system say that memory ran out. */
  const MESSAGES: seq<string> :=
    ["MemoryError", "Cannot allocate memory", "Out of memory", "std::bad_alloc", "Allocation failed"]

  predicate UpperOf(a: char, b: char) {
    65 <= a as int <= 90 && b as int == a as int + 32
  }

  /** The same byte, or one letter in both cases. */
  predicate SameLetter(a: char, b: char) {
    a == b || UpperOf(a, b) || UpperOf(b, a)
  }

  /** The message stands at this place of the stream, in whatever case. */
  predicate Says(stream: string, i: int, message: string) {
    && 0 <= i <= |stream| - |message|
    && forall j :: 0 <= j < |message| ==> SameLetter(stream[i + j], message[j])
  }

  lemma LowerIs(a: char, b: char)
    ensures LowerByte(a) == LowerByte(b) <==> SameLetter(a, b)
  {
  }

  lemma LowerMessages(k: nat)
    requires k < |MARKERS|
    ensures |MARKERS| == |MESSAGES| && Lower(MESSAGES[k]) == MARKERS[k]
  {
    assert |MESSAGES[k]| == |MARKERS[k]|;
    forall j | 0 <= j < |MARKERS[k]| ensures LowerByte(MESSAGES[k][j]) == MARKERS[k][j] {
    }
  }

  lemma SaysIffAt(stream: string, i: int, k: nat)
    requires k < |MESSAGES|
    ensures Says(stream, i, MESSAGES[k]) <==> At(MARKERS[k], Lower(stream), i)
  {
    var message, low := MESSAGES[k], Lower(stream);
    LowerMessages(k);
    if 0 <= i <= |stream| - |message| {
      forall j | 0 <= j < |message|
        ensures SameLetter(stream[i + j], message[j]) <==> low[i..i + |message|][j] == MARKERS[k][j]
      {
        LowerIs(stream[i + j], message[j]);
        assert MARKERS[k][j] == Lower(message)[j];
      }
    }
  }

  /** Memory is reported to have run out exactly if the stream says so somewhere, in one of these ways. */
  lemma ReportedIff(chunks: seq<string>)
    ensures var stream := Received(chunks);
      HasMarker(Lower(stream)) <==>
      exists k, i :: 0 <= k < |MESSAGES| && 0 <= i <= |stream| && Says(stream, i, MESSAGES[k])
  {
    var stream := Received(chunks);
    forall k, i | 0 <= k < |MESSAGES| ensures Says(stream, i, MESSAGES[k]) <==> At(MARKERS[k], Lower(stream), i) {
      SaysIffAt(stream, i, k);
    }
    if k, i :| 0 <= k < |MESSAGES| && 0 <= i <= |stream| && Says(stream, i, MESSAGES[k]) {
      assert Occurs(MARKERS[k], Lower(stream));
    }
    if HasMarker(Lower(stream)) {
      var k :| 0 <= k < |MARKERS| && Occurs(MARKERS[k], Lower(stream));
      var i :| 0 <= i <= |Lower(stream)| && At(MARKERS[k], Lower(stream), i);
      assert Says(stream, i, MESSAGES[k]);
    }
  }
}
