/** The installed-image scan for credential canaries: like the denylist scan, but it only carries the tail of the
    previous chunk. */
module CanaryScan {
  import opened Basics
  import opened Bytes
  import opened Utf8
  import opened Scanner

  /** The `k`-th chunk after the last `n` bytes of the chunk before it. */
  function Window(chunks: seq<seq<Byte>>, k: nat, n: nat): seq<Byte>
    requires k < |chunks|
  { (if k == 0 then [] else LastN(chunks[k - 1], n)) + chunks[k] }

  /** Some of the first `k` windows shows `s`. */
  predicate Reported(chunks: seq<seq<Byte>>, k: nat, n: nat, s: seq<Byte>)
    requires k <= |chunks|
  {
    if k == 0 then false else Reported(chunks, k - 1, n, s) || Occurs(Window(chunks, k - 1, n), s)
  }

  function Noted(found: map<seq<Byte>, bool>, window: seq<Byte>): (r: map<seq<Byte>, bool>)
    ensures forall s :: s in r <==> s in found
    ensures forall s :: s in r ==> r[s] == (found[s] || Occurs(window, s))
  { map s | s in found :: found[s] || Occurs(window, s) }

  /** The keys of a dictionary made from a list: each once, where it came first. */
  function Keys(forbidden: seq<seq<Byte>>): (keys: seq<seq<Byte>>)
    ensures forall s :: s in keys <==> s in forbidden
  {
    if forbidden == [] then []
    else
      var init, last := Keys(forbidden[..|forbidden| - 1]), forbidden[|forbidden| - 1];
      assert forbidden == forbidden[..|forbidden| - 1] + [last];
      if last in init then init else init + [last]
  }

  /** What is reported: by the text a canary shows as, whether a window showed it; of canaries that show alike, the last
      one decides. */
  function Report(chunks: seq<seq<Byte>>, keys: seq<seq<Byte>>, n: nat): map<seq<Point>, bool> {
    if keys == [] then map[]
    else
      var last := keys[|keys| - 1];
      Report(chunks, keys[..|keys| - 1], n)[Replaced(last) := Reported(chunks, |chunks|, n, last)]
  }

  lemma ReportStep(chunks: seq<seq<Byte>>, keys: seq<seq<Byte>>, i: nat, n: nat)
    requires i < |keys|
    ensures Report(chunks, keys[..i + 1], n)
            == Report(chunks, keys[..i], n)[Replaced(keys[i]) := Reported(chunks, |chunks|, n, keys[i])]
  {
    assert keys[..i + 1][..i] == keys[..i];
  }

  /** Which canaries the image shows, window by window. */
  method ScanForForbiddenBytes(chunks: seq<seq<Byte>>, forbidden: seq<seq<Byte>>)
    returns (report: map<seq<Point>, bool>)
    ensures report == Report(chunks, Keys(forbidden), Longest(forbidden))
  {
    var found := map s | s in forbidden :: false;
    var overlap := Longest(forbidden);
    var prevTail: seq<Byte> := [];
    var k := 0;
    while k < |chunks|
      invariant 0 <= k <= |chunks|
      invariant prevTail == if k == 0 then [] else LastN(chunks[k - 1], overlap)
      invariant forall s :: s in found <==> s in forbidden
      invariant forall s :: s in found ==> found[s] == Reported(chunks, k, overlap, s)
    {
      var window := prevTail + chunks[k];
      assert window == Window(chunks, k, overlap);
      found := Noted(found, window);
      prevTail := LastN(chunks[k], overlap);
      k := k + 1;
    }
    var keys := Keys(forbidden);
    report := map[];
    for i := 0 to |keys|
      invariant report == Report(chunks, keys[..i], overlap)
    {
      ReportStep(chunks, keys, i, overlap);
      assert keys[i] in keys;
      report := report[Replaced(keys[i]) := found[keys[i]]];
    }
    assert keys[..|keys|] == keys;
  }

  /** A reported canary is in the image, whatever the chunking. */
  lemma {:induction false} ReportedIsReal(chunks: seq<seq<Byte>>, k: nat, n: nat, s: seq<Byte>)
    requires k <= |chunks| && Reported(chunks, k, n, s)
    ensures Occurs(Joined(chunks, k), s)
  {
    if Reported(chunks, k - 1, n, s) {
      ReportedIsReal(chunks, k - 1, n, s);
      StaysFound(Joined(chunks, k - 1), chunks[k - 1], s);
    } else if k == 1 {
      assert Joined(chunks, 1) == [] + chunks[0];
    } else {
      WindowInWhole(Joined(chunks, k - 2), chunks[k - 2], chunks[k - 1], n, s);
      assert Joined(chunks, k - 1) == Joined(chunks, k - 2) + chunks[k - 2];
    }
  }

  lemma StaysFound(before: seq<Byte>, chunk: seq<Byte>, s: seq<Byte>)
    requires Occurs(before, s)
    ensures Occurs(before + chunk, s)
  {
    OccursInWider([], before, chunk, s);
    assert [] + before + chunk == before + chunk;
  }

  lemma WindowInWhole(before: seq<Byte>, previous: seq<Byte>, chunk: seq<Byte>, n: nat, s: seq<Byte>)
    requires Occurs(LastN(previous, n) + chunk, s)
    ensures Occurs(before + previous + chunk, s)
  {
    var tail := LastN(previous, n);
    var cut := previous[..|previous| - |tail|];
    assert previous == cut + tail;
    OccursInWider(before + cut, tail + chunk, [], s);
    Regroup(before, cut, tail, chunk);
  }

  lemma Regroup(before: seq<Byte>, cut: seq<Byte>, tail: seq<Byte>, chunk: seq<Byte>)
    ensures before + (cut + tail) + chunk == before + cut + (tail + chunk) + []
  {
  }

  /** Every chunk between the first and the last is at most one byte shorter than `size`. */
  predicate ChunksCover(chunks: seq<seq<Byte>>, size: nat) {
    forall i :: 0 < i < |chunks| - 1 ==> |chunks[i]| + 1 >= size
  }

  /** A canary for which they are, if it is in the image, is reported. */
  lemma {:induction false} RealIsReported(chunks: seq<seq<Byte>>, k: nat, longest: nat, s: seq<Byte>)
    requires k <= |chunks| && ChunksCover(chunks, |s|) && 0 < |s| <= longest
    requires Occurs(Joined(chunks, k), s)
    ensures Reported(chunks, k, longest, s)
  {
    if k == 0 {
    } else if Occurs(Joined(chunks, k - 1), s) {
      RealIsReported(chunks, k - 1, longest, s);
    } else if k == 1 {
      assert Joined(chunks, 1) == [] + chunks[0];
    } else if k == 2 {
      assert Joined(chunks, 1) == [] + chunks[0];
      assert Joined(chunks, 1) == chunks[0];
      NewOccurrence(Joined(chunks, 1), chunks[1], s, longest);
      assert Window(chunks, 1, longest) == LastN(Joined(chunks, 1), longest) + chunks[1];
    } else {
      TailCovers(Joined(chunks, k - 2), chunks[k - 2], chunks[k - 1], longest, s);
    }
  }

  lemma TailCovers(before: seq<Byte>, previous: seq<Byte>, chunk: seq<Byte>, longest: nat, s: seq<Byte>)
    requires longest >= |s| && |previous| + 1 >= |s|
    requires Occurs(before + previous + chunk, s) && !Occurs(before + previous, s)
    ensures Occurs(LastN(previous, longest) + chunk, s)
  {
    var tail := LastN(previous, longest);
    NewOccurrence(before + previous, chunk, s, |tail|);
    assert LastN(before + previous, |tail|) == tail;
  }

  // ----- and only then -------------------------------------------------------------------------------------------

  predicate Sized(chunks: seq<seq<Byte>>, sizes: seq<nat>) {
    |chunks| == |sizes| && forall i :: 0 <= i < |sizes| ==> |chunks[i]| == sizes[i]
  }

  function Image(chunks: seq<seq<Byte>>): seq<Byte> { Joined(chunks, |chunks|) }

  /** Where the `k`-th chunk begins. */
  function Offset(sizes: seq<nat>, k: nat): nat
    requires k <= |sizes|
  { if k == 0 then 0 else Offset(sizes, k - 1) + sizes[k - 1] }

  function Total(sizes: seq<nat>): nat { Offset(sizes, |sizes|) }

  lemma {:induction false} OffsetMono(sizes: seq<nat>, i: nat, k: nat)
    requires i <= k <= |sizes|
    ensures Offset(sizes, i) <= Offset(sizes, k)
  {
    if i < k { OffsetMono(sizes, i, k - 1); }
  }

  lemma {:induction false} OffsetOfPrefix(sizes: seq<nat>, n: nat, k: nat)
    requires k <= n <= |sizes|
    ensures Offset(sizes[..n], k) == Offset(sizes, k)
  {
    if k > 0 { OffsetOfPrefix(sizes, n, k - 1); }
  }

  lemma {:induction false} JoinedLength(chunks: seq<seq<Byte>>, sizes: seq<nat>, k: nat)
    requires Sized(chunks, sizes) && k <= |sizes|
    ensures |Joined(chunks, k)| == Offset(sizes, k)
  {
    if k > 0 { JoinedLength(chunks, sizes, k - 1); }
  }

  /** An image cut into chunks of the given sizes. */
  function Pieces(image: seq<Byte>, sizes: seq<nat>): (chunks: seq<seq<Byte>>)
    requires |image| == Total(sizes)
    ensures Sized(chunks, sizes)
    decreases |sizes|
  {
    if sizes == [] then []
    else
      var n := |sizes| - 1;
      var cut := Offset(sizes, n);
      OffsetOfPrefix(sizes, n, n);
      Pieces(image[..cut], sizes[..n]) + [image[cut..]]
  }

  lemma {:induction false} JoinedOfPrefix(chunks: seq<seq<Byte>>, n: nat, k: nat)
    requires k <= n <= |chunks|
    ensures Joined(chunks[..n], k) == Joined(chunks, k)
  {
    if k > 0 { JoinedOfPrefix(chunks, n, k - 1); }
  }

  lemma {:induction false} PiecesJoin(image: seq<Byte>, sizes: seq<nat>)
    requires |image| == Total(sizes)
    ensures Image(Pieces(image, sizes)) == image
    decreases |sizes|
  {
    if sizes != [] {
      var n := |sizes| - 1;
      var cut := Offset(sizes, n);
      OffsetOfPrefix(sizes, n, n);
      var init := Pieces(image[..cut], sizes[..n]);
      PiecesJoin(image[..cut], sizes[..n]);
      JoinedOfPrefix(init + [image[cut..]], n, n);
      assert (init + [image[cut..]])[..n] == init;
      assert image[..cut] + image[cut..] == image;
    }
  }

  /** A canary that a window shows lies in two neighbouring chunks. */
  lemma WindowReach(chunks: seq<seq<Byte>>, sizes: seq<nat>, k: nat, n: nat, s: seq<Byte>) returns (at: nat)
    requires Sized(chunks, sizes) && k < |chunks| && Occurs(Window(chunks, k, n), s)
    ensures at <= |Image(chunks)| && At(Image(chunks), s, at)
    ensures (k > 0 ==> Offset(sizes, k - 1) <= at) && at + |s| <= Offset(sizes, k + 1)
  {
    var w := Window(chunks, k, n);
    WindowEnds(chunks, k, n);
    var before := Joined(chunks, k + 1)[..|Joined(chunks, k + 1)| - |w|];
    var i :| 0 <= i <= |w| && At(w, s, i);
    JoinedPrefix(chunks, k + 1, |chunks|);
    JoinedLength(chunks, sizes, k + 1);
    if k > 0 { JoinedLength(chunks, sizes, k - 1); }
    at := |before| + i;
    ShiftedAt(before, w, Image(chunks), s, i);
  }

  lemma WindowEnds(chunks: seq<seq<Byte>>, k: nat, n: nat)
    requires k < |chunks|
    ensures var w, now := Window(chunks, k, n), Joined(chunks, k + 1);
            && |w| <= |now| && now == now[..|now| - |w|] + w
            && (k > 0 ==> |Joined(chunks, k - 1)| <= |now| - |w|)
  {
    if k > 0 {
      TailAtEnd(Joined(chunks, k - 1), chunks[k - 1], chunks[k], n);
    }
  }

  lemma TailAtEnd(before: seq<Byte>, previous: seq<Byte>, chunk: seq<Byte>, n: nat)
    ensures var w, now := LastN(previous, n) + chunk, before + previous + chunk;
            |before| + |w| <= |now| && now == now[..|now| - |w|] + w
  {
  }

  lemma ShiftedAt(before: seq<Byte>, w: seq<Byte>, image: seq<Byte>, s: seq<Byte>, i: nat)
    requires At(w, s, i) && |before + w| <= |image| && image[..|before + w|] == before + w
    ensures At(image, s, |before| + i)
  {
    var at := |before| + i;
    assert image[..|before + w|][at..at + |s|] == (before + w)[at..at + |s|] == w[i..i + |s|];
  }

  function Other(b: Byte): Byte { if b == 0 then 1 else 0 }

  function Filled(b: Byte, n: nat): (s: seq<Byte>)
    ensures |s| == n && forall i :: 0 <= i < n ==> s[i] == b
  { seq(n, _ => b) }

  /** The canary `s` at `at`; around it no byte with which `d` could begin before it or end after it. */
  function Alone(s: seq<Byte>, d: seq<Byte>, at: nat, size: nat): (image: seq<Byte>)
    requires d != [] && at + |s| <= size
    ensures |image| == size && image[at..at + |s|] == s
  { Filled(Other(d[0]), at) + s + Filled(Other(d[|d| - 1]), size - at - |s|) }

  lemma OnlyInside(s: seq<Byte>, d: seq<Byte>, at: nat, size: nat, q: nat)
    requires d != [] && at + |s| <= size && At(Alone(s, d, at, size), d, q)
    ensures at <= q && q + |d| <= at + |s| && At(s, d, q - at)
  {
    var image := Alone(s, d, at, size);
    assert image[q] == image[q..q + |d|][0] == d[0];
    assert image[q + |d| - 1] == image[q..q + |d|][|d| - 1] == d[|d| - 1];
    assert s[q - at..q - at + |d|] == image[at..at + |s|][q - at..q - at + |d|] == image[q..q + |d|];
  }

  /** All chunks between the first and the last are long enough for this canary. */
  predicate Wide(sizes: seq<nat>, s: seq<Byte>) { forall i :: 0 < i < |sizes| - 1 ==> sizes[i] + 1 >= |s| }

  /** Chunks of these sizes, whatever they hold, do not hide this canary. */
  ghost predicate NeverMissed(sizes: seq<nat>, longest: nat, s: seq<Byte>) {
    forall chunks: seq<seq<Byte>> ::
      Sized(chunks, sizes) && Occurs(Image(chunks), s) ==> Reported(chunks, |chunks|, longest, s)
  }

  /** A stretch of `size` bytes at `at` covers a middle chunk and more on both sides. */
  predicate Straddles(sizes: seq<nat>, at: nat, size: nat) {
    exists i :: 0 < i < |sizes| - 1 && at < Offset(sizes, i) && Offset(sizes, i + 1) < at + size
  }

  /** The chunk that holds the byte before `end`. */
  lemma {:induction false} ChunkOf(sizes: seq<nat>, end: nat, k: nat) returns (i: nat)
    requires k <= |sizes| && 0 < end <= Offset(sizes, k)
    ensures i < k && Offset(sizes, i) < end <= Offset(sizes, i + 1)
  {
    if end <= Offset(sizes, k - 1) { i := ChunkOf(sizes, end, k - 1); } else { i := k - 1; }
  }

  /** An occurrence is in some window if and only if it does not straddle a chunk: exactly which canaries are
      reported, for any content. */
  lemma ReportedExactly(chunks: seq<seq<Byte>>, sizes: seq<nat>, n: nat, s: seq<Byte>)
    requires Sized(chunks, sizes) && 0 < |s| <= n
    ensures Reported(chunks, |chunks|, n, s)
            <==> exists at :: 0 <= at <= |Image(chunks)| && At(Image(chunks), s, at) && !Straddles(sizes, at, |s|)
  {
    if Reported(chunks, |chunks|, n, s) {
      var k := SomeWindow(chunks, |chunks|, n, s);
      var at := WindowReach(chunks, sizes, k, n, s);
      InTwoChunks(sizes, k, at, |s|);
    }
    forall at | 0 <= at <= |Image(chunks)| && At(Image(chunks), s, at) && !Straddles(sizes, at, |s|)
      ensures Reported(chunks, |chunks|, n, s)
    {
      OccurrenceShown(chunks, sizes, n, s, at);
    }
  }

  lemma {:induction false} SomeWindow(chunks: seq<seq<Byte>>, k: nat, n: nat, s: seq<Byte>) returns (i: nat)
    requires k <= |chunks| && Reported(chunks, k, n, s)
    ensures i < k && Occurs(Window(chunks, i, n), s)
  {
    if Reported(chunks, k - 1, n, s) { i := SomeWindow(chunks, k - 1, n, s); } else { i := k - 1; }
  }

  lemma InTwoChunks(sizes: seq<nat>, k: nat, at: nat, size: nat)
    requires k < |sizes| && (k > 0 ==> Offset(sizes, k - 1) <= at) && at + size <= Offset(sizes, k + 1)
    ensures !Straddles(sizes, at, size)
  {
    forall i | 0 < i < |sizes| - 1 ensures !(at < Offset(sizes, i) && Offset(sizes, i + 1) < at + size) {
      if k <= i { OffsetMono(sizes, k + 1, i + 1); } else { OffsetMono(sizes, i, k - 1); }
    }
  }

  lemma OccurrenceShown(chunks: seq<seq<Byte>>, sizes: seq<nat>, n: nat, s: seq<Byte>, at: nat)
    requires Sized(chunks, sizes) && 0 < |s| <= n && At(Image(chunks), s, at) && !Straddles(sizes, at, |s|)
    ensures Reported(chunks, |chunks|, n, s)
  {
    JoinedLength(chunks, sizes, |sizes|);
    var k := ChunkOf(sizes, at + |s|, |sizes|);
    JoinedLength(chunks, sizes, k);
    JoinedLength(chunks, sizes, k + 1);
    JoinedPrefix(chunks, k + 1, |chunks|);
    WindowEnds(chunks, k, n);
    WindowBegins(chunks, sizes, k, n);
    var w, now := Window(chunks, k, n), Joined(chunks, k + 1);
    assert k > 1 ==> Offset(sizes, k - 1) <= at;
    AtInTail(Image(chunks), now, w, s, at);
    ReportedLater(chunks, k, |chunks|, n, s);
  }

  /** A window begins with the previous chunk or, if that is longer, `n` bytes before its own. */
  lemma WindowBegins(chunks: seq<seq<Byte>>, sizes: seq<nat>, k: nat, n: nat)
    requires Sized(chunks, sizes) && k < |sizes|
    ensures var begin := |Joined(chunks, k + 1)| - |Window(chunks, k, n)|;
            if k == 0 then begin == 0 else begin <= Max(Offset(sizes, k - 1), Offset(sizes, k) - n)
  {
    JoinedLength(chunks, sizes, k);
    if k > 0 { JoinedLength(chunks, sizes, k - 1); }
  }

  lemma AtInTail(image: seq<Byte>, now: seq<Byte>, w: seq<Byte>, s: seq<Byte>, at: nat)
    requires |now| <= |image| && image[..|now|] == now && At(image, s, at) && at + |s| <= |now|
    requires |w| <= |now| && now[|now| - |w|..] == w && |now| - |w| <= at
    ensures Occurs(w, s)
  {
    var i := at - (|now| - |w|);
    assert w[i..i + |s|] == now[at..at + |s|] == image[..|now|][at..at + |s|] == s;
    OccursIn(w, s, i);
  }

  lemma {:induction false} ReportedLater(chunks: seq<seq<Byte>>, i: nat, k: nat, n: nat, s: seq<Byte>)
    requires i < k <= |chunks| && Occurs(Window(chunks, i, n), s)
    ensures Reported(chunks, k, n, s)
  {
    if i + 1 < k { ReportedLater(chunks, i, k - 1, n, s); }
  }

  /** Any canary of at least the right length can be put across a middle chunk and more on both sides. */
  lemma Across(sizes: seq<nat>, size: nat, i: nat) returns (at: nat)
    requires forall k :: 0 <= k < |sizes| ==> sizes[k] > 0
    requires 0 < i < |sizes| - 1 && sizes[i] + 1 < size <= Total(sizes)
    ensures at + size <= Total(sizes) && Straddles(sizes, at, size)
  {
    var begin, end := Offset(sizes, i), Offset(sizes, i + 1);
    assert begin == Offset(sizes, i - 1) + sizes[i - 1];
    OffsetMono(sizes, i + 2, |sizes|);
    assert Offset(sizes, i + 2) == end + sizes[i + 1];
    at := Min(begin - 1, Total(sizes) - size);
    assert at < begin && end < at + size;
  }

  /** What covers a middle chunk and more on both sides is at least two bytes longer. */
  lemma NarrowNeverStraddles(sizes: seq<nat>, at: nat, s: seq<Byte>)
    requires Wide(sizes, s)
    ensures !Straddles(sizes, at, |s|)
  {
    forall i | 0 < i < |sizes| - 1 ensures !(at < Offset(sizes, i) && Offset(sizes, i + 1) < at + |s|) {
      assert Offset(sizes, i + 1) == Offset(sizes, i) + sizes[i];
    }
  }

  lemma {:induction false} TooLongToOccur(chunks: seq<seq<Byte>>, sizes: seq<nat>, s: seq<Byte>)
    requires Sized(chunks, sizes) && |s| > Total(sizes)
    ensures !Occurs(Image(chunks), s)
  {
    JoinedLength(chunks, sizes, |sizes|);
  }

  /** Whatever an image holds, a canary that fits into it is not missed exactly when no chunk in the middle is more than
      one byte shorter than it. */
  lemma NeverMissedExactly(sizes: seq<nat>, longest: nat, s: seq<Byte>)
    requires (forall i :: 0 <= i < |sizes| ==> sizes[i] > 0) && 0 < |s| <= longest
    ensures NeverMissed(sizes, longest, s) <==> |s| > Total(sizes) || Wide(sizes, s)
  {
    if |s| > Total(sizes) {
      forall chunks: seq<seq<Byte>> | Sized(chunks, sizes) ensures !Occurs(Image(chunks), s) {
        TooLongToOccur(chunks, sizes, s);
      }
    } else if Wide(sizes, s) {
      forall chunks: seq<seq<Byte>> | Sized(chunks, sizes) && Occurs(Image(chunks), s)
        ensures Reported(chunks, |chunks|, longest, s)
      {
        RealIsReported(chunks, |chunks|, longest, s);
      }
    } else {
      var i :| 0 < i < |sizes| - 1 && sizes[i] + 1 < |s|;
      var at := Across(sizes, |s|, i);
      var image := Alone(s, s, at, Total(sizes));
      var chunks := Pieces(image, sizes);
      PiecesJoin(image, sizes);
      OccursIn(image, s, at);
      forall q | 0 <= q <= |image| && At(image, s, q) ensures Straddles(sizes, q, |s|) {
        OnlyInside(s, s, at, Total(sizes), q);
      }
      ReportedExactly(chunks, sizes, longest, s);
      assert !Reported(chunks, |chunks|, longest, s);
    }
  }

  /** So no canary of at most `longest` bytes is missed exactly when no chunk in the middle is more than one byte short
      of that. */
  lemma NeverMissesExactly(sizes: seq<nat>, longest: nat)
    requires forall i :: 0 <= i < |sizes| ==> sizes[i] > 0
    ensures (forall s: seq<Byte> :: 0 < |s| <= longest ==> NeverMissed(sizes, longest, s))
            <==> forall i :: 0 < i < |sizes| - 1 ==> sizes[i] + 1 >= longest
  {
    forall s: seq<Byte> | 0 < |s| <= longest
      ensures NeverMissed(sizes, longest, s) <==> |s| > Total(sizes) || Wide(sizes, s)
    {
      NeverMissedExactly(sizes, longest, s);
    }
    if i :| 0 < i < |sizes| - 1 && sizes[i] + 1 < longest {
      var s := Filled(0, sizes[i] + 2);
      ThreeChunks(sizes, i);
      assert !Wide(sizes, s);
      assert !NeverMissed(sizes, longest, s);
    }
  }

  lemma ThreeChunks(sizes: seq<nat>, i: nat)
    requires (forall k :: 0 <= k < |sizes| ==> sizes[k] > 0) && 0 < i < |sizes| - 1
    ensures sizes[i] + 2 <= Total(sizes)
  {
    OffsetMono(sizes, i + 2, |sizes|);
    assert Offset(sizes, i + 2) == Offset(sizes, i + 1) + sizes[i + 1];
    assert Offset(sizes, i + 1) == Offset(sizes, i) + sizes[i];
    assert Offset(sizes, i) == Offset(sizes, i - 1) + sizes[i - 1];
  }

  // ----- what is reported ----------------------------------------------------------------------------------------

  /** The last canary that shows as this text. */
  function LastAlike(keys: seq<seq<Byte>>, text: seq<Point>): Option<seq<Byte>> {
    if keys == [] then None
    else if Replaced(keys[|keys| - 1]) == text then Some(keys[|keys| - 1])
    else LastAlike(keys[..|keys| - 1], text)
  }

  lemma {:induction false} LastAlikeIs(keys: seq<seq<Byte>>, s: seq<Byte>)
    requires s in keys
    ensures var l := LastAlike(keys, Replaced(s)); l.Some? && l.value in keys && Replaced(l.value) == Replaced(s)
  {
    var init, last := keys[..|keys| - 1], keys[|keys| - 1];
    assert keys == init + [last];
    if Replaced(last) != Replaced(s) { LastAlikeIs(init, s); }
  }

  /** A text stands in the report if some canary shows as it, and the last such canary decides. */
  lemma {:induction false} ReportMeans(chunks: seq<seq<Byte>>, keys: seq<seq<Byte>>, n: nat, text: seq<Point>)
    ensures var r, l := Report(chunks, keys, n), LastAlike(keys, text);
            && (text in r <==> l.Some?)
            && (text in r ==> r[text] == Reported(chunks, |chunks|, n, l.value))
  {
    if keys != [] { ReportMeans(chunks, keys[..|keys| - 1], n, text); }
  }

  /** Whether the report says that this canary is in the image. */
  predicate Says(chunks: seq<seq<Byte>>, forbidden: seq<seq<Byte>>, s: seq<Byte>) {
    var report := Report(chunks, Keys(forbidden), Longest(forbidden));
    Replaced(s) in report && report[Replaced(s)]
  }

  /** The canary whose verdict stands for this one. */
  function Deputy(forbidden: seq<seq<Byte>>, s: seq<Byte>): (d: seq<Byte>)
    requires s in forbidden
    ensures d in forbidden && Replaced(d) == Replaced(s)
  {
    LastAlikeIs(Keys(forbidden), s);
    LastAlike(Keys(forbidden), Replaced(s)).value
  }

  lemma SaysDeputy(chunks: seq<seq<Byte>>, forbidden: seq<seq<Byte>>, s: seq<Byte>)
    requires s in forbidden
    ensures Says(chunks, forbidden, s) <==> Reported(chunks, |chunks|, Longest(forbidden), Deputy(forbidden, s))
  {
    LastAlikeIs(Keys(forbidden), s);
    ReportMeans(chunks, Keys(forbidden), Longest(forbidden), Replaced(s));
  }

  lemma ShowsSomething(s: seq<Byte>)
    ensures Replaced(s) == [] <==> s == []
  {
  }

  /** Whatever an image holds, every canary in it is reported. */
  ghost predicate MissesNothing(sizes: seq<nat>, forbidden: seq<seq<Byte>>) {
    forall chunks: seq<seq<Byte>>, s: seq<Byte> ::
      Sized(chunks, sizes) && s in forbidden && s != [] && Occurs(Image(chunks), s) ==> Says(chunks, forbidden, s)
  }

  /** Whatever an image holds, a canary is reported if and only if it is in the image. */
  ghost predicate Faithful(sizes: seq<nat>, forbidden: seq<seq<Byte>>) {
    forall chunks: seq<seq<Byte>>, s: seq<Byte> ::
      Sized(chunks, sizes) && s in forbidden && s != [] ==> (Says(chunks, forbidden, s) <==> Occurs(Image(chunks), s))
  }

  /** Wherever `s` is put, it brings along an occurrence of `d` that some window shows. */
  ghost predicate StandsIn(sizes: seq<nat>, s: seq<Byte>, d: seq<Byte>) {
    forall p :: 0 <= p <= Total(sizes) - |s| ==> Brings(sizes, s, d, p)
  }

  predicate Brings(sizes: seq<nat>, s: seq<Byte>, d: seq<Byte>, p: nat) {
    exists q :: 0 <= q <= |s| && At(s, d, q) && !Straddles(sizes, p + q, |d|)
  }

  /** No canary of an image goes unreported, whatever the image holds, exactly when each one stands in for those that
      show as it does. */
  lemma MissesNothingExactly(sizes: seq<nat>, forbidden: seq<seq<Byte>>)
    ensures MissesNothing(sizes, forbidden)
            <==> forall s :: s in forbidden && s != [] ==> StandsIn(sizes, s, Deputy(forbidden, s))
  {
    if forall s :: s in forbidden && s != [] ==> StandsIn(sizes, s, Deputy(forbidden, s)) {
      forall chunks: seq<seq<Byte>>, s: seq<Byte> |
        Sized(chunks, sizes) && s in forbidden && s != [] && Occurs(Image(chunks), s)
        ensures Says(chunks, forbidden, s)
      {
        StandInReports(chunks, sizes, forbidden, s);
      }
    } else {
      var s :| s in forbidden && s != [] && !StandsIn(sizes, s, Deputy(forbidden, s));
      var p :| 0 <= p <= Total(sizes) - |s| && !Brings(sizes, s, Deputy(forbidden, s), p);
      var chunks := SilentDeputy(sizes, forbidden, s, p);
    }
  }

  lemma StandInReports(chunks: seq<seq<Byte>>, sizes: seq<nat>, forbidden: seq<seq<Byte>>, s: seq<Byte>)
    requires Sized(chunks, sizes) && s in forbidden && s != [] && Occurs(Image(chunks), s)
    requires StandsIn(sizes, s, Deputy(forbidden, s))
    ensures Says(chunks, forbidden, s)
  {
    var d, image := Deputy(forbidden, s), Image(chunks);
    SaysDeputy(chunks, forbidden, s);
    ShowsSomething(s);
    ShowsSomething(d);
    JoinedLength(chunks, sizes, |sizes|);
    var p :| 0 <= p <= |image| && At(image, s, p);
    assert Brings(sizes, s, d, p);
    var q :| 0 <= q <= |s| && At(s, d, q) && !Straddles(sizes, p + q, |d|);
    AtWithin(image, s, p, d, q);
    ReportedExactly(chunks, sizes, Longest(forbidden), d);
  }

  lemma AtWithin(image: seq<Byte>, s: seq<Byte>, p: nat, d: seq<Byte>, q: nat)
    requires At(image, s, p) && At(s, d, q)
    ensures At(image, d, p + q)
  {
    var there := image[p..p + |s|];
    forall i | 0 <= i < |d| ensures image[p + q..p + q + |d|][i] == d[i] {
      assert image[p + q + i] == there[q + i] == s[q..q + |d|][i];
    }
  }

  lemma SilentDeputy(sizes: seq<nat>, forbidden: seq<seq<Byte>>, s: seq<Byte>, p: nat) returns (chunks: seq<seq<Byte>>)
    requires s in forbidden && s != [] && p + |s| <= Total(sizes) && !Brings(sizes, s, Deputy(forbidden, s), p)
    ensures Sized(chunks, sizes) && Occurs(Image(chunks), s) && !Says(chunks, forbidden, s)
  {
    var d := Deputy(forbidden, s);
    ShowsSomething(s);
    ShowsSomething(d);
    var image := Alone(s, d, p, Total(sizes));
    chunks := Pieces(image, sizes);
    PiecesJoin(image, sizes);
    OccursIn(image, s, p);
    forall q | 0 <= q <= |image| && At(image, d, q) ensures Straddles(sizes, q, |d|) {
      OnlyInside(s, d, p, Total(sizes), q);
      assert p + (q - p) == q;
    }
    ReportedExactly(chunks, sizes, Longest(forbidden), d);
    SaysDeputy(chunks, forbidden, s);
  }

  /** A canary stands in for itself exactly when it does not fit into the image or all middle chunks are long enough
      for it. */
  lemma StandsInForItself(sizes: seq<nat>, s: seq<Byte>)
    requires (forall i :: 0 <= i < |sizes| ==> sizes[i] > 0) && s != []
    ensures StandsIn(sizes, s, s) <==> |s| > Total(sizes) || Wide(sizes, s)
  {
    if |s| <= Total(sizes) {
      if Wide(sizes, s) {
        forall p | 0 <= p <= Total(sizes) - |s| ensures Brings(sizes, s, s, p) {
          NarrowNeverStraddles(sizes, p, s);
          assert At(s, s, 0) && !Straddles(sizes, p + 0, |s|);
        }
      } else {
        var i :| 0 < i < |sizes| - 1 && sizes[i] + 1 < |s|;
        var p := Across(sizes, |s|, i);
        assert !Brings(sizes, s, s, p);
      }
    }
  }

  /** No two canaries show alike. */
  predicate Apart(forbidden: seq<seq<Byte>>) {
    forall a, b :: a in forbidden && b in forbidden && Replaced(a) == Replaced(b) ==> a == b
  }

  /** So when no two show alike, nothing is missed exactly when the middle chunks are long enough for every canary that
      fits. */
  lemma ApartMissesNothingExactly(sizes: seq<nat>, forbidden: seq<seq<Byte>>)
    requires (forall i :: 0 <= i < |sizes| ==> sizes[i] > 0) && Apart(forbidden)
    ensures MissesNothing(sizes, forbidden)
            <==> forall s :: s in forbidden && 0 < |s| <= Total(sizes) ==> Wide(sizes, s)
  {
    forall s | s in forbidden && s != []
      ensures StandsIn(sizes, s, Deputy(forbidden, s)) <==> |s| > Total(sizes) || Wide(sizes, s)
    {
      assert Deputy(forbidden, s) == s;
      StandsInForItself(sizes, s);
    }
    MissesNothingExactly(sizes, forbidden);
  }

  /** And a canary is missed that fits into the image and does not hold the last one that shows as it does. */
  lemma AlikeIsMissed(sizes: seq<nat>, forbidden: seq<seq<Byte>>, s: seq<Byte>)
    requires s in forbidden && 0 < |s| <= Total(sizes) && !Occurs(s, Deputy(forbidden, s))
    ensures !MissesNothing(sizes, forbidden)
  {
    assert !Brings(sizes, s, Deputy(forbidden, s), 0);
    var chunks := SilentDeputy(sizes, forbidden, s, 0);
  }

  /** The report is right about every canary, whatever the image holds, exactly when the middle chunks are long enough
      for every canary that fits, and none that fits shows as another one does. */
  lemma FaithfulExactly(sizes: seq<nat>, forbidden: seq<seq<Byte>>)
    requires forall i :: 0 <= i < |sizes| ==> sizes[i] > 0
    ensures Faithful(sizes, forbidden) <==>
              && (forall s :: s in forbidden && 0 < |s| <= Total(sizes) ==> Wide(sizes, s))
              && FittingApart(sizes, forbidden)
  {
    if Faithful(sizes, forbidden) {
      forall a, b | a in forbidden && b in forbidden && 0 < |a| <= Total(sizes) && Replaced(a) == Replaced(b)
        ensures a == b
      {
        ShowsSomething(a);
        ShowsSomething(b);
        HoldsAlike(sizes, forbidden, a, b);
        HoldsAlike(sizes, forbidden, b, a);
        OccursBothWays(a, b);
      }
      forall s | s in forbidden && 0 < |s| <= Total(sizes) ensures Wide(sizes, s) {
        assert Deputy(forbidden, s) == s;
        forall chunks: seq<seq<Byte>> | Sized(chunks, sizes) && Occurs(Image(chunks), s)
          ensures Reported(chunks, |chunks|, Longest(forbidden), s)
        {
          SaysDeputy(chunks, forbidden, s);
        }
        NeverMissedExactly(sizes, Longest(forbidden), s);
      }
    } else {
      var chunks: seq<seq<Byte>>, s: seq<Byte> :|
        Sized(chunks, sizes) && s in forbidden && s != []
        && (Says(chunks, forbidden, s) <==> !Occurs(Image(chunks), s));
      WrongBecause(chunks, sizes, forbidden, s);
    }
  }

  predicate FittingApart(sizes: seq<nat>, forbidden: seq<seq<Byte>>) {
    forall a, b :: a in forbidden && b in forbidden && 0 < |a| <= Total(sizes) && Replaced(a) == Replaced(b) ==> a == b
  }

  lemma OccursBothWays(a: seq<Byte>, b: seq<Byte>)
    requires Occurs(a, b) && Occurs(b, a)
    ensures a == b
  {
  }

  /** An image with nothing but `a` and filler around it must hold what shows as `a`. */
  lemma HoldsAlike(sizes: seq<nat>, forbidden: seq<seq<Byte>>, a: seq<Byte>, b: seq<Byte>)
    requires Faithful(sizes, forbidden) && a in forbidden && b in forbidden && Replaced(a) == Replaced(b)
    requires 0 < |a| <= Total(sizes) && b != []
    ensures Occurs(a, b)
  {
    var image := Alone(a, b, 0, Total(sizes));
    var chunks := Pieces(image, sizes);
    PiecesJoin(image, sizes);
    OccursIn(image, a, 0);
    assert Says(chunks, forbidden, a) && Says(chunks, forbidden, b);
    var q :| 0 <= q <= |image| && At(image, b, q);
    OnlyInside(a, b, 0, Total(sizes), q);
    OccursIn(a, b, q);
  }

  lemma WrongBecause(chunks: seq<seq<Byte>>, sizes: seq<nat>, forbidden: seq<seq<Byte>>, s: seq<Byte>)
    requires Sized(chunks, sizes) && s in forbidden && s != []
    requires Says(chunks, forbidden, s) <==> !Occurs(Image(chunks), s)
    ensures !FittingApart(sizes, forbidden) || (|s| <= Total(sizes) && !Wide(sizes, s))
  {
    var d, n := Deputy(forbidden, s), Longest(forbidden);
    SaysDeputy(chunks, forbidden, s);
    ShowsSomething(s);
    ShowsSomething(d);
    JoinedLength(chunks, sizes, |sizes|);
    if Reported(chunks, |chunks|, n, d) {
      ReportedIsReal(chunks, |chunks|, n, d);
      assert d != s && |d| <= Total(sizes);
    } else if d == s && Wide(sizes, s) {
      RealIsReported(chunks, |chunks|, n, s);
    }
  }

  /** Canaries that are text show apart. */
  lemma TextIsApart(forbidden: seq<seq<Byte>>)
    requires forall s :: s in forbidden ==> WellFormed(s)
    ensures Apart(forbidden)
  {
    forall a, b | a in forbidden && b in forbidden && Replaced(a) == Replaced(b) ensures a == b {
      WellFormedShowApart(a, b);
    }
  }

  /** Two bytes that are never part of a character show alike: the report says that neither is in an image that is the
      first of them. */
  lemma AlikeInvalidBytes()
    ensures Image([[0xFF]]) == [0xFF] && Occurs([0xFF], [0xFF])
    ensures Report([[0xFF]], Keys([[0xFF], [0xFE]]), 1) == map[[REPLACEMENT] := false]
  {
    var chunks: seq<seq<Byte>>, forbidden: seq<seq<Byte>> := [[0xFF]], [[0xFF], [0xFE]];
    assert Joined(chunks, 1) == [] + [0xFF];
    assert At([0xFF], [0xFF], 0);
    assert forbidden[..1] == [[0xFF]];
    assert Keys(forbidden[..1]) == [[0xFF]];
    assert Keys(forbidden) == [[0xFF], [0xFE]];
    assert Replaced([0xFE]) == [REPLACEMENT] && Replaced([0xFF]) == [REPLACEMENT];
    assert !Occurs(Window(chunks, 0, 1), [0xFE]);
    assert Keys(forbidden)[..1] == [[0xFF]];
  }

  /** Showing alike is not always a miss: a truncated character holds its own first byte, which shows as it does. */
  lemma AlikeButHeld(sizes: seq<nat>)
    requires forall i :: 0 <= i < |sizes| ==> sizes[i] > 0
    ensures Replaced([0xE2, 0x82]) == Replaced([0xE2]) && MissesNothing(sizes, [[0xE2, 0x82], [0xE2]])
  {
    var s: seq<Byte>, d: seq<Byte> := [0xE2, 0x82], [0xE2];
    var forbidden: seq<seq<Byte>> := [s, d];
    assert s[2..] == [] && d[1..] == [];
    assert Replaced(s) == [REPLACEMENT] && Replaced(d) == [REPLACEMENT];
    assert forbidden[..1] == [s];
    assert Keys(forbidden[..1]) == [s];
    assert Keys(forbidden) == forbidden;
    forall x | x in forbidden ensures StandsIn(sizes, x, Deputy(forbidden, x)) {
      assert Deputy(forbidden, x) == d;
      forall p | 0 <= p <= Total(sizes) - |x| ensures Brings(sizes, x, d, p) {
        NarrowNeverStraddles(sizes, p, d);
        assert At(x, d, 0) && !Straddles(sizes, p + 0, |d|);
      }
    }
    MissesNothingExactly(sizes, forbidden);
  }
}
