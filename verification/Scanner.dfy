/** The denylist scan: chunked, budgeted reading that must agree with searching the whole content. */
module Scanner {
  import opened Basics
  import opened Bytes
  import opened Utf8
  import opened Arithmetic
  import opened BoundedLog

  const CHUNK_BYTES: nat := 4 * 1024 * 1024
  const MAX_SCAN_BYTES_PER_FILE: nat := 64 * 1024 * 1024
  const OVERLAP_BYTES: nat := 256
  const OWNERSHIP_METADATA_FILES: set<string> := {"README.md", "LICENSE"}

  const CAPPED := "file_scan_capped"
  const READ_ERROR := "file_read_error"
  const SKIPPED := "overall_budget_exhausted_skip"

  type Term = seq<Point>

  // A file as successive reads would return it, and the read, if any, that fails instead.
  datatype File = File(chunks: seq<seq<Byte>>, failsAt: Option<nat>)

  /** A read returns at most one chunk, and nothing only at the end. */
  predicate ValidFile(f: File) { forall i :: 0 <= i < |f.chunks| ==> 0 < |f.chunks[i]| <= CHUNK_BYTES }

  function Content(f: File): seq<Byte> { Joined(f.chunks, |f.chunks|) }

  predicate Broken(f: File) { f.failsAt.Some? && f.failsAt.value <= |f.chunks| }

  /** How many chunks can be read. */
  function Reads(f: File): (n: nat)
    ensures n <= |f.chunks|
  {
    if Broken(f) then f.failsAt.value else |f.chunks|
  }

  /** What can be read; all there is, unless a read fails. */
  function Part(f: File): seq<Byte> { Joined(f.chunks, Reads(f)) }

  /** The first `k` chunks together. */
  function Joined(chunks: seq<seq<Byte>>, k: nat): seq<Byte>
    requires k <= |chunks|
  {
    if k == 0 then [] else Joined(chunks, k - 1) + chunks[k - 1]
  }

  lemma {:induction false} JoinedPrefix(chunks: seq<seq<Byte>>, k: nat, n: nat)
    requires k <= n <= |chunks|
    ensures |Joined(chunks, k)| <= |Joined(chunks, n)|
    ensures Joined(chunks, n)[..|Joined(chunks, k)|] == Joined(chunks, k)
  {
    if k < n {
      JoinedPrefix(chunks, k, n - 1);
    }
  }

  /** Some nonempty term of the list occurs in the text. */
  predicate Hit(denylist: seq<Term>, text: seq<Point>) {
    exists i :: 0 <= i < |denylist| && denylist[i] != [] && Occurs(text, denylist[i])
  }

  /** Some nonempty term of the list occurs in the bytes, encoded. */
  predicate ByteHit(denylist: seq<Term>, bytes: seq<Byte>) {
    exists i :: 0 <= i < |denylist| && HeldBy(denylist[i], bytes)
  }

  predicate HeldBy(term: Term, bytes: seq<Byte>) { term != [] && Scalars(term) && Occurs(bytes, Encode(term)) }

  /** The carried tail covers all but one byte of the term. */
  predicate Fits(term: Term, overlap: nat) { term != [] && Scalars(term) && |Encode(term)| <= overlap + 1 }

  /** Some term of the list that fits occurs in the bytes, encoded. */
  predicate FitHit(denylist: seq<Term>, bytes: seq<Byte>, overlap: nat) {
    exists i :: 0 <= i < |denylist| && Fits(denylist[i], overlap) && HeldBy(denylist[i], bytes)
  }

  function Longest(denylist: seq<Term>): (n: nat)
    ensures forall i :: 0 <= i < |denylist| ==> |denylist[i]| <= n
  {
    if denylist == [] then 0
    else Max(Longest(denylist[..|denylist| - 1]), |denylist[|denylist| - 1]|)
  }

  method AnyTermIn(denylist: seq<Term>, text: seq<Point>) returns (found: bool)
    ensures found <==> Hit(denylist, text)
  {
    var i := 0;
    while i < |denylist|
      invariant 0 <= i <= |denylist|
      invariant forall k :: 0 <= k < i ==> denylist[k] == [] || !Occurs(text, denylist[k])
    {
      if denylist[i] != [] && Occurs(text, denylist[i]) { return true; }
      i := i + 1;
    }
    found := false;
  }

  // ----- the windows ---------------------------------------------------------------------------------------------

  /** How much of what was read is carried to the next chunk. */
  function Overlap(denylist: seq<Term>): nat { Max(OVERLAP_BYTES, Longest(denylist) - 1) }

  /** What is searched after the `k`-th read: the carried tail of everything before, and the chunk. */
  function WindowAt(chunks: seq<seq<Byte>>, k: nat, overlap: nat): seq<Byte>
    requires k < |chunks|
  { LastN(Joined(chunks, k), overlap) + chunks[k] }

  /** One of the first `n` windows shows a term. */
  predicate Seen(chunks: seq<seq<Byte>>, n: nat, denylist: seq<Term>, overlap: nat)
    requires n <= |chunks|
  { exists k :: 0 <= k < n && Hit(denylist, Decode(WindowAt(chunks, k, overlap))) }

  /** No chunk boundary hides a term that fits: what a new chunk brings in shows up in the window. */
  lemma {:induction false} WindowHolds(chunks: seq<seq<Byte>>, n: nat, e: seq<Byte>, overlap: nat) returns (k: nat)
    requires n <= |chunks| && 0 < |e| <= overlap + 1 && Occurs(Joined(chunks, n), e)
    ensures k < n && Occurs(WindowAt(chunks, k, overlap), e)
  {
    if Occurs(Joined(chunks, n - 1), e) {
      k := WindowHolds(chunks, n - 1, e, overlap);
    } else {
      NewOccurrence(Joined(chunks, n - 1), chunks[n - 1], e, overlap);
      k := n - 1;
    }
  }

  /** So a term that fits is seen, wherever the chunks end. */
  lemma FitIsSeen(chunks: seq<seq<Byte>>, n: nat, denylist: seq<Term>, overlap: nat)
    requires n <= |chunks| && FitHit(denylist, Joined(chunks, n), overlap)
    ensures Seen(chunks, n, denylist, overlap)
  {
    var i :| 0 <= i < |denylist| && Fits(denylist[i], overlap) && HeldBy(denylist[i], Joined(chunks, n));
    EncodeStarts(denylist[i]);
    var k := WindowHolds(chunks, n, Encode(denylist[i]), overlap);
    DecodeKeepsText(WindowAt(chunks, k, overlap), denylist[i]);
    assert Hit(denylist, Decode(WindowAt(chunks, k, overlap)));
  }

  /** A window is a stretch of the content. */
  lemma WindowIsSlice(chunks: seq<seq<Byte>>, k: nat, n: nat, overlap: nat)
    requires k < n <= |chunks|
    ensures var start, end := Max(0, |Joined(chunks, k)| - overlap), |Joined(chunks, k + 1)|;
            start <= end <= |Joined(chunks, n)| && WindowAt(chunks, k, overlap) == Joined(chunks, n)[start..end]
  {
    JoinedPrefix(chunks, k + 1, n);
    TailAndChunk(Joined(chunks, k), chunks[k], Joined(chunks, n), overlap);
  }

  lemma TailAndChunk(before: seq<Byte>, chunk: seq<Byte>, all: seq<Byte>, overlap: nat)
    requires |before + chunk| <= |all| && all[..|before + chunk|] == before + chunk
    ensures LastN(before, overlap) + chunk == all[Max(0, |before| - overlap)..|before + chunk|]
  {
    assert all[..|before + chunk|][Max(0, |before| - overlap)..] == LastN(before, overlap) + chunk;
  }

  /** In well-formed content, what is seen is there. */
  lemma SeenIsReal(chunks: seq<seq<Byte>>, n: nat, denylist: seq<Term>, overlap: nat)
    requires n <= |chunks| && WellFormed(Joined(chunks, |chunks|)) && Seen(chunks, n, denylist, overlap)
    ensures ByteHit(denylist, Joined(chunks, n))
  {
    var k :| 0 <= k < n && Hit(denylist, Decode(WindowAt(chunks, k, overlap)));
    var i :| 0 <= i < |denylist| && denylist[i] != [] && Occurs(Decode(WindowAt(chunks, k, overlap)), denylist[i]);
    ShownIsHeld(chunks, k, n, denylist[i], overlap);
    assert HeldBy(denylist[i], Joined(chunks, n));
  }

  lemma ShownIsHeld(chunks: seq<seq<Byte>>, k: nat, n: nat, term: Term, overlap: nat)
    requires k < n <= |chunks| && WellFormed(Joined(chunks, |chunks|))
    ensures Occurs(Decode(WindowAt(chunks, k, overlap)), term) ==>
              Scalars(term) && Occurs(Joined(chunks, n), Encode(term))
  {
    WindowIsSlice(chunks, k, |chunks|, overlap);
    WindowIsSlice(chunks, k, n, overlap);
    var start, end := Max(0, |Joined(chunks, k)| - overlap), |Joined(chunks, k + 1)|;
    SliceHeld(Joined(chunks, |chunks|), Joined(chunks, n), WindowAt(chunks, k, overlap), start, end, term);
  }

  lemma SliceHeld(content: seq<Byte>, now: seq<Byte>, window: seq<Byte>, start: nat, end: nat, term: Term)
    requires WellFormed(content) && start <= end <= |content| && end <= |now|
    requires window == content[start..end] == now[start..end]
    ensures Occurs(Decode(window), term) ==> Scalars(term) && Occurs(now, Encode(term))
  {
    if Occurs(Decode(window), term) {
      SliceHolds(content, start, end, term);
      OccursInSlice(now, start, end, Encode(term));
    }
  }

  lemma OccursInSlice(s: seq<int>, i: nat, j: nat, sub: seq<int>)
    requires i <= j <= |s| && Occurs(s[i..j], sub)
    ensures Occurs(s, sub)
  {
    OccursInWider(s[..i], s[i..j], s[j..], sub);
    assert s[..i] + s[i..j] + s[j..] == s;
  }

  /** When content and terms are text and every term fits, the windows show a term if and only if the content read
      holds one. */
  lemma SeenExactly(chunks: seq<seq<Byte>>, n: nat, denylist: seq<Term>, overlap: nat)
    requires n <= |chunks| && WellFormed(Joined(chunks, |chunks|))
    requires forall i :: 0 <= i < |denylist| && denylist[i] != [] ==> Fits(denylist[i], overlap)
    ensures Seen(chunks, n, denylist, overlap) <==> ByteHit(denylist, Joined(chunks, n))
  {
    if ByteHit(denylist, Joined(chunks, n)) {
      assert FitHit(denylist, Joined(chunks, n), overlap);
      FitIsSeen(chunks, n, denylist, overlap);
    }
    if Seen(chunks, n, denylist, overlap) {
      SeenIsReal(chunks, n, denylist, overlap);
    }
  }

  /** ASCII terms of the list always fit, and so does every term of at most 64 characters. */
  lemma FitsWhenAsciiOrShort(denylist: seq<Term>, i: nat)
    requires i < |denylist| && denylist[i] != [] && Scalars(denylist[i])
    requires Ascii(denylist[i]) || |denylist[i]| <= 64
    ensures Fits(denylist[i], Overlap(denylist))
  {
    if Ascii(denylist[i]) {
      EncodeAscii(denylist[i]);
    } else {
      FourBytesEach(denylist[i]);
    }
  }

  lemma {:induction false} FourBytesEach(s: seq<Point>)
    requires Scalars(s)
    ensures |Encode(s)| <= 4 * |s|
  {
    if s != [] { FourBytesEach(s[1..]); }
  }

  // ----- one file ------------------------------------------------------------------------------------------------

  /** How many chunks are read from the `k`-th on, if none shows a term. */
  function Reach(f: File, maxBytes: nat, k: nat): (n: nat)
    requires k <= Reads(f)
    ensures k <= n <= Reads(f)
    ensures |Joined(f.chunks, n)| >= maxBytes || n == Reads(f)
    decreases Reads(f) - k
  {
    if k == Reads(f) || |Joined(f.chunks, k)| >= maxBytes then k else Reach(f, maxBytes, k + 1)
  }

  /** The budget is met if and only if it is met by all that can be read. */
  lemma ReachesCap(f: File, maxBytes: nat)
    ensures |Joined(f.chunks, Reach(f, maxBytes, 0))| < maxBytes <==> |Part(f)| < maxBytes
  {
    JoinedPrefix(f.chunks, Reach(f, maxBytes, 0), Reads(f));
  }

  lemma ReadOneMore(f: File, denylist: seq<Term>, maxBytes: nat, k: nat, overlap: nat)
    requires k < Reads(f) && |Joined(f.chunks, k)| < maxBytes
    ensures Reach(f, maxBytes, k) == Reach(f, maxBytes, k + 1)
    ensures var now, window := Joined(f.chunks, k + 1), WindowAt(f.chunks, k, overlap);
            && |now| == |Joined(f.chunks, k)| + |f.chunks[k]| && LastN(window, overlap) == LastN(now, overlap)
            && (Seen(f.chunks, k + 1, denylist, overlap)
                <==> Seen(f.chunks, k, denylist, overlap) || Hit(denylist, Decode(window)))
  {
    CarryIsTail(Joined(f.chunks, k), f.chunks[k], overlap);
  }

  /** The `k`-th window is the first to show a term, and `scanned` bytes were read by then. */
  predicate FoundAt(chunks: seq<seq<Byte>>, k: nat, denylist: seq<Term>, scanned: nat)
    requires k < |chunks|
  {
    && !Seen(chunks, k, denylist, Overlap(denylist))
    && Hit(denylist, Decode(WindowAt(chunks, k, Overlap(denylist))))
    && scanned == |Joined(chunks, k + 1)|
  }

  /** Scans one file under a byte budget. */
  method FileContainsAnyTerm(file: File, denylist: seq<Term>, maxBytes: nat, log: BoundedEventLog, now: int)
    returns (matched: bool, scanned: nat, capped: bool)
    requires ValidFile(file) && Valid(log.View())
    modifies log
    ensures Valid(log.View()) && Count(log.View(), SKIPPED) == old(Count(log.View(), SKIPPED))
    ensures scanned < maxBytes + CHUNK_BYTES
    ensures var overlap, n := Overlap(denylist), Reach(file, maxBytes, 0);
            && (matched <==> Seen(file.chunks, n, denylist, overlap))
            && (matched ==> exists k :: 0 <= k < n && FoundAt(file.chunks, k, denylist, scanned))
            && (capped <==> !matched && |Part(file)| >= maxBytes)
            && (capped ==> scanned == |Joined(file.chunks, n)| >= maxBytes)
            && (!matched && !capped ==> n == Reads(file) && scanned == if Broken(file) then 0 else |Content(file)|)
  {
    var overlap := Max(OVERLAP_BYTES, Longest(denylist) - 1);
    var carry: seq<Byte> := [];
    matched, scanned, capped := false, 0, false;
    var next := 0;
    ReachesCap(file, maxBytes);
    while scanned < maxBytes
      invariant 0 <= next <= Reads(file) && Reach(file, maxBytes, 0) == Reach(file, maxBytes, next)
      invariant scanned == |Joined(file.chunks, next)| < maxBytes + CHUNK_BYTES
      invariant carry == LastN(Joined(file.chunks, next), overlap)
      invariant !Seen(file.chunks, next, denylist, overlap)
      invariant Valid(log.View()) && Count(log.View(), SKIPPED) == old(Count(log.View(), SKIPPED))
      decreases |file.chunks| - next
    {
      if file.failsAt == Some(next) {
        var _ := log.Record(READ_ERROR, now);
        return false, 0, false;
      }
      if next == |file.chunks| { return false, scanned, false; }
      var chunk := file.chunks[next];
      scanned := scanned + |chunk|;
      var window := carry + chunk;
      ReadOneMore(file, denylist, maxBytes, next, overlap);
      var hit := AnyTermIn(denylist, Decode(window));
      if hit {
        assert FoundAt(file.chunks, next, denylist, scanned);
        return true, scanned, false;
      }
      carry, next := LastN(window, overlap), next + 1;
    }
    // The budget ran out before the end of the file was seen.
    var _ := log.Record(CAPPED, now);
    capped := true;
  }

  // ----- exactly the terms that are never hidden -----------------------------------------------------------------

  /** The chunks that reads of `size` bytes give: all full but the last. */
  function Cut(content: seq<Byte>, size: nat): (chunks: seq<seq<Byte>>)
    requires size > 0
    decreases |content|
  {
    if |content| <= size then [content] else [content[..size]] + Cut(content[size..], size)
  }

  /** Whatever the content that holds the term, some window shows it. */
  ghost predicate NeverHidden(term: Term, overlap: nat, size: nat)
    requires Scalars(term) && size > 0
  {
    forall content: seq<Byte> :: Occurs(content, Encode(term)) ==> ShowsUp(Cut(content, size), term, overlap)
  }

  predicate ShowsUp(chunks: seq<seq<Byte>>, term: Term, overlap: nat) {
    exists k :: 0 <= k < |chunks| && Occurs(Decode(WindowAt(chunks, k, overlap)), term)
  }

  /** A term is never hidden, by any content, if and only if it takes at most one byte more than is carried; the size of
      the reads does not matter. */
  lemma NeverHiddenExactly(term: Term, overlap: nat, size: nat)
    requires term != [] && Scalars(term) && size > 0
    ensures NeverHidden(term, overlap, size) <==> |Encode(term)| <= overlap + 1
  {
    if |Encode(term)| <= overlap + 1 {
      forall content: seq<Byte> | Occurs(content, Encode(term)) ensures ShowsUp(Cut(content, size), term, overlap) {
        FitShowsUp(term, overlap, content, size);
      }
    } else {
      var before := MulGap(overlap, size);
      var content := Hiding(term, before);
      HidingIsText(term, before);
      forall k | 0 <= k < |Cut(content, size)|
        ensures !Occurs(Decode(WindowAt(Cut(content, size), k, overlap)), term)
      {
        WindowSilent(term, overlap, size, before, k);
      }
      assert !ShowsUp(Cut(content, size), term, overlap);
    }
  }

  lemma FitShowsUp(term: Term, overlap: nat, content: seq<Byte>, size: nat)
    requires term != [] && Scalars(term) && |Encode(term)| <= overlap + 1 && Occurs(content, Encode(term)) && size > 0
    ensures ShowsUp(Cut(content, size), term, overlap)
  {
    var chunks := Cut(content, size);
    CutJoined(content, size);
    EncodeStarts(term);
    var k := WindowHolds(chunks, |chunks|, Encode(term), overlap);
    DecodeKeepsText(WindowAt(chunks, k, overlap), term);
  }

  lemma {:induction false} JoinedFront(a: seq<Byte>, rest: seq<seq<Byte>>, k: nat)
    requires k <= |rest|
    ensures Joined([a] + rest, k + 1) == a + Joined(rest, k)
  {
    if k == 0 {
      assert Joined([a] + rest, 1) == [] + a;
    } else {
      JoinedFront(a, rest, k - 1);
      assert ([a] + rest)[k] == rest[k - 1];
      assert a + (Joined(rest, k - 1) + rest[k - 1]) == a + Joined(rest, k - 1) + rest[k - 1];
    }
  }

  lemma {:induction false} CutJoined(content: seq<Byte>, size: nat)
    requires size > 0
    ensures Cut(content, size) != [] && Joined(Cut(content, size), |Cut(content, size)|) == content
    decreases |content|
  {
    if |content| <= size {
      assert Joined([content], 1) == [] + content;
    } else {
      var rest := Cut(content[size..], size);
      CutJoined(content[size..], size);
      JoinedFront(content[..size], rest, |rest|);
    }
  }

  /** The `k`-th chunk begins after `k` full ones. */
  predicate EvenAt(chunks: seq<seq<Byte>>, size: nat, k: nat)
    requires k < |chunks|
  { |Joined(chunks, k)| == k * size && |Joined(chunks, k + 1)| <= (k + 1) * size }

  lemma {:induction false} CutIsEven(content: seq<Byte>, size: nat, k: nat)
    requires size > 0 && k < |Cut(content, size)|
    ensures EvenAt(Cut(content, size), size, k)
    decreases |content|
  {
    if |content| <= size {
      assert Joined([content], 1) == [] + content;
    } else {
      var a, rest := content[..size], Cut(content[size..], size);
      JoinedFront(a, rest, k);
      if k > 0 {
        CutIsEven(content[size..], size, k - 1);
        JoinedFront(a, rest, k - 1);
        Distribute(k, size);
      }
    }
  }

  lemma Distribute(k: nat, size: nat)
    requires k > 0
    ensures (k - 1) * size + size == k * size && k * size + size == (k + 1) * size
  {
  }

  /** Padding in front of the term such that one byte more of it than is carried lies before the end of a chunk. */
  function MulGap(overlap: nat, size: nat): (before: nat)
    requires size > 0
    ensures before + overlap + 1 == (overlap + 1) * size
  {
    MulMono(1, size, overlap + 1);
    (overlap + 1) * size - overlap - 1
  }

  function Filler(term: Term): Byte { if term != [] && term[0] == 0x20 then 0x21 else 0x20 }

  function Padding(p: Byte, n: nat): (s: seq<Byte>)
    ensures |s| == n && forall i :: 0 <= i < n ==> s[i] == p
  { seq(n, _ => p) }

  function Hiding(term: Term, before: nat): seq<Byte>
    requires Scalars(term)
  { Padding(Filler(term), before) + Encode(term) }

  lemma HidingIsText(term: Term, before: nat)
    requires Scalars(term)
    ensures WellFormed(Hiding(term, before)) && Occurs(Hiding(term, before), Encode(term))
  {
    var pad := Padding(Filler(term), before);
    EncodeAscii(pad);
    EncodeSplit(pad, term);
    DecodeEncode(pad + term);
    Inside(pad, Encode(term), []);
    assert pad + Encode(term) + [] == pad + Encode(term);
  }

  /** The term's first byte is not in the padding. */
  lemma HiddenBehind(term: Term, before: nat, n: nat)
    requires Scalars(term) && term != [] && n < before + |Encode(term)|
    ensures !Occurs(Hiding(term, before)[..n], Encode(term))
  {
    var content, e := Hiding(term, before), Encode(term);
    EncodeStarts(term);
    FirstByte(term);
    forall at | 0 <= at <= n ensures !At(content[..n], e, at) {
      if at + |e| <= n {
        assert content[..n][at..at + |e|][0] == content[at] == Filler(term);
      }
    }
  }

  lemma FirstByte(term: Term)
    requires Scalars(term) && term != []
    ensures Encode(term) != [] && Encode(term)[0] != Filler(term)
  {
    assert Encode(term)[0] == EncodeOne(term[0])[0];
  }

  lemma WindowSilent(term: Term, overlap: nat, size: nat, before: nat, k: nat)
    requires term != [] && Scalars(term) && |Encode(term)| > overlap + 1
    requires size > 0 && before + overlap + 1 == (overlap + 1) * size
    requires k < |Cut(Hiding(term, before), size)|
    ensures !Occurs(Decode(WindowAt(Cut(Hiding(term, before), size), k, overlap)), term)
  {
    var content := Hiding(term, before);
    var chunks := Cut(content, size);
    CutJoined(content, size);
    CutIsEven(content, size, k);
    if |Joined(chunks, k + 1)| <= before + overlap + 1 {
      EarlySilent(chunks, term, overlap, before, k);
    } else {
      if k < overlap + 1 { MulMono(k + 1, overlap + 1, size); }
      MulMono(overlap + 1, k, size);
      LateSilent(chunks, term, overlap, before, k);
    }
  }

  /** Windows that end before the term does. */
  lemma EarlySilent(chunks: seq<seq<Byte>>, term: Term, overlap: nat, before: nat, k: nat)
    requires term != [] && Scalars(term) && k < |chunks| && Joined(chunks, |chunks|) == Hiding(term, before)
    requires |Joined(chunks, k + 1)| < before + |Encode(term)|
    ensures !Occurs(Decode(WindowAt(chunks, k, overlap)), term)
  {
    NotYetThere(chunks, term, before, k + 1);
    ShownInHiding(chunks, term, overlap, before, k);
  }

  lemma ShownInHiding(chunks: seq<seq<Byte>>, term: Term, overlap: nat, before: nat, k: nat)
    requires Scalars(term) && k < |chunks| && Joined(chunks, |chunks|) == Hiding(term, before)
    ensures Occurs(Decode(WindowAt(chunks, k, overlap)), term) ==> Occurs(Joined(chunks, k + 1), Encode(term))
  {
    HidingIsText(term, before);
    ShownIsHeld(chunks, k, k + 1, term, overlap);
  }

  lemma NotYetThere(chunks: seq<seq<Byte>>, term: Term, before: nat, n: nat)
    requires term != [] && Scalars(term) && n <= |chunks| && Joined(chunks, |chunks|) == Hiding(term, before)
    requires |Joined(chunks, n)| < before + |Encode(term)|
    ensures !Occurs(Joined(chunks, n), Encode(term))
  {
    JoinedPrefix(chunks, n, |chunks|);
    HiddenBehind(term, before, |Joined(chunks, n)|);
  }

  /** Windows that begin after the term does. */
  lemma LateSilent(chunks: seq<seq<Byte>>, term: Term, overlap: nat, before: nat, k: nat)
    requires Scalars(term) && k < |chunks| && Joined(chunks, |chunks|) == Hiding(term, before)
    requires |Joined(chunks, k)| > before + overlap
    ensures !Occurs(Decode(WindowAt(chunks, k, overlap)), term)
  {
    WindowIsSlice(chunks, k, |chunks|, overlap);
    TooFewBytes(WindowAt(chunks, k, overlap), term);
  }
}
