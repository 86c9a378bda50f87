/** Turning a binary PPM screen dump into a PNG (RFC 2083): reading the header, writing scanlines and chunks, and what a
    reader gets back. Compression and the CRC are abstract. */
module PpmToPng {
  import opened Basics

  type Bytes = seq<int>

  // ----- the PPM header ------------------------------------------------------------------------------------------

  predicate IsSpace(b: int) { b == 32 || 9 <= b <= 13 }

  const HASH := 35
  const NEWLINE := 10

  /** What is left from the next newline on. */
  function FromNewline(data: Bytes): (rest: Bytes)
    ensures |rest| <= |data| && (data != [] && data[0] != NEWLINE ==> |rest| < |data|)
  { if data == [] || data[0] == NEWLINE then data else FromNewline(data[1..]) }

  /** What is left after whitespace and comments; a comment ends before its newline. */
  function Skipped(data: Bytes): (rest: Bytes)
    ensures |rest| <= |data|
    decreases |data|
  {
    if data == [] then data
    else if IsSpace(data[0]) then Skipped(data[1..])
    else if data[0] == HASH then Skipped(FromNewline(data))
    else data
  }

  function Token(data: Bytes): (t: Bytes)
    ensures |t| <= |data|
  { if data == [] || IsSpace(data[0]) then [] else [data[0]] + Token(data[1..]) }

  predicate Numeral(t: Bytes) { t != [] && forall i :: 0 <= i < |t| ==> 48 <= t[i] <= 57 }

  function Value(t: Bytes): nat
    requires forall i :: 0 <= i < |t| ==> 48 <= t[i] <= 57
  { if t == [] then 0 else Value(t[..|t| - 1]) * 10 + (t[|t| - 1] - 48) }

  // A number and what follows it.
  datatype Scanned = Scanned(value: nat, rest: Bytes)

  function Number(data: Bytes): Option<Scanned> {
    var from := Skipped(data);
    var t := Token(from);
    if Numeral(t) then Some(Scanned(Value(t), from[|t|..])) else None
  }

  datatype Image = Image(width: nat, height: nat, pixels: Bytes)

  function Take(s: Bytes, n: nat): Bytes { if n <= |s| then s[..n] else s }
  function Drop(s: Bytes, n: nat): Bytes { if n <= |s| then s[n..] else [] }

  /** Nothing when it is not a P6 file or a number of the header is malformed. */
  function Parse(data: Bytes): Option<Image> {
    if !([80, 54] <= data) then None
    else
      var w := Number(data[2..]);
      if w.None? then None
      else
        var h := Number(w.value.rest);
        if h.None? then None
        else
          var maxval := Number(h.value.rest);
          if maxval.None? then None
          else Some(Picture(w.value.value, h.value.value, maxval.value.rest))
  }

  /** The pixels follow a single whitespace byte. */
  function Picture(width: nat, height: nat, rest: Bytes): Image { Cropped(width, height, Drop(rest, 1)) }

  /** As many pixels as the size asks for, or all there are. */
  function Cropped(width: nat, height: nat, pixels: Bytes): Image {
    Image(width, height, Take(pixels, width * height * 3))
  }

  predicate Complete(width: nat, height: nat, pixels: Bytes) { |pixels| >= width * height * 3 }

  // ----- reading it byte by byte ---------------------------------------------------------------------------------

  method SkipWsAndComments(data: Bytes, start: nat) returns (pos: nat)
    requires start <= |data|
    ensures start <= pos <= |data| && data[pos..] == Skipped(data[start..])
  {
    pos := start;
    while true
      invariant start <= pos <= |data| && Skipped(data[pos..]) == Skipped(data[start..])
      decreases |data| - pos
    {
      while pos < |data| && IsSpace(data[pos])
        invariant start <= pos <= |data| && Skipped(data[pos..]) == Skipped(data[start..])
      {
        assert data[pos..][1..] == data[pos + 1..];
        pos := pos + 1;
      }
      if pos < |data| && data[pos] == HASH {
        ghost var at := pos;
        assert Skipped(data[at..]) == Skipped(FromNewline(data[at..]));
        while pos < |data| && data[pos] != NEWLINE
          invariant at <= pos <= |data| && FromNewline(data[pos..]) == FromNewline(data[at..])
          invariant pos == at ==> pos < |data| && data[pos] == HASH
        {
          assert data[pos..][1..] == data[pos + 1..];
          pos := pos + 1;
        }
      } else {
        return;
      }
    }
  }

  method ReadInt(data: Bytes, start: nat) returns (value: Option<nat>, pos: nat)
    requires start <= |data|
    ensures start <= pos <= |data|
    ensures Number(data[start..]) == if value.None? then None else Some(Scanned(value.value, data[pos..]))
  {
    var from := SkipWsAndComments(data, start);
    pos := from;
    while pos < |data| && !IsSpace(data[pos])
      invariant from <= pos <= |data| && Token(data[from..]) == data[from..pos] + Token(data[pos..])
    {
      TokenStep(data, from, pos);
      pos := pos + 1;
    }
    var t := data[from..pos];
    assert Token(data[from..]) == t && data[from..][|t|..] == data[pos..];
    value := if Numeral(t) then Some(Value(t)) else None;
  }

  lemma TokenStep(data: Bytes, from: nat, pos: nat)
    requires from <= pos < |data| && !IsSpace(data[pos])
    ensures data[from..pos] + Token(data[pos..]) == data[from..pos + 1] + Token(data[pos + 1..])
  {
    var rest := Token(data[pos + 1..]);
    assert data[pos..][1..] == data[pos + 1..];
    assert data[from..pos] + [data[pos]] == data[from..pos + 1];
    assert data[from..pos] + ([data[pos]] + rest) == data[from..pos] + [data[pos]] + rest;
  }

  // ----- scanlines and chunks ------------------------------------------------------------------------------------

  /** Every scanline: the filter type "None", then its pixels, as far as there are any. */
  function Scanlines(pixels: Bytes, stride: nat, height: nat): Bytes {
    if height == 0 then []
    else Scanlines(pixels, stride, height - 1) + ([0] + Take(Drop(pixels, (height - 1) * stride), stride))
  }

  /** The `k` low bytes of a number, most significant first. */
  function BigEndian(n: nat, k: nat): (b: Bytes)
    ensures |b| == k
    decreases k
  { if k == 0 then [] else BigEndian(n / 256, k - 1) + [n % 256] }

  function Unsigned(b: Bytes): int { if b == [] then 0 else Unsigned(b[..|b| - 1]) * 256 + b[|b| - 1] }

  datatype Tools = Tools(compress: Bytes -> Bytes, decompress: Bytes -> Bytes, crc: Bytes -> int)

  ghost predicate Work(t: Tools) {
    && (forall s: Bytes :: t.decompress(t.compress(s)) == s)
    && (forall s: Bytes :: 0 <= t.crc(s) < 0x1_0000_0000)
  }

  const IHDR: Bytes := [73, 72, 68, 82]
  const IDAT: Bytes := [73, 68, 65, 84]
  const IEND: Bytes := [73, 69, 78, 68]
  const SIGNATURE: Bytes := [0x89, 80, 78, 71, 13, 10, 26, 10]

  function Chunk(t: Tools, tag: Bytes, data: Bytes): Bytes
    requires |data| < 0x1_0000_0000
  { BigEndian(|data|, 4) + tag + data + BigEndian(t.crc(tag + data) % 0x1_0000_0000, 4) }

  function Header(width: nat, height: nat): Bytes
    requires width < 0x1_0000_0000 && height < 0x1_0000_0000
  { BigEndian(width, 4) + BigEndian(height, 4) + [8, 2, 0, 0, 0] }

  /** Nothing when a number does not fit its four bytes. */
  function Encode(t: Tools, image: Image): Option<Bytes> {
    var idat := t.compress(Scanlines(image.pixels, image.width * 3, image.height));
    if image.width >= 0x1_0000_0000 || image.height >= 0x1_0000_0000 || |idat| >= 0x1_0000_0000 then None
    else Some(SIGNATURE + (Chunk(t, IHDR, Header(image.width, image.height)) +
                           (Chunk(t, IDAT, idat) + Chunk(t, IEND, []))))
  }

  method ReadPpm(ppm: Bytes) returns (image: Option<Image>)
    ensures image == Parse(ppm)
  {
    if !([80, 54] <= ppm) { return None; }
    var width, pos := ReadInt(ppm, 2);
    if width.None? { return None; }
    var height, maxval;
    height, pos := ReadInt(ppm, pos);
    if height.None? { return None; }
    maxval, pos := ReadInt(ppm, pos);
    if maxval.None? { return None; }
    image := Some(Picture(width.value, height.value, ppm[pos..]));
  }

  method Filter(pixels: Bytes, stride: nat, height: nat) returns (raw: Bytes)
    ensures raw == Scanlines(pixels, stride, height)
  {
    raw := [];
    for y := 0 to height
      invariant raw == Scanlines(pixels, stride, y)
    {
      raw := raw + ([0] + Take(Drop(pixels, y * stride), stride));
    }
  }

  /** The conversion of a whole file. */
  function Converted(t: Tools, ppm: Bytes): Option<Bytes> {
    var image := Parse(ppm);
    if image.None? then None else Encode(t, image.value)
  }

  /** `ppm_to_png`. */
  method Convert(t: Tools, ppm: Bytes) returns (png: Option<Bytes>)
    ensures png == Converted(t, ppm)
  {
    var image := ReadPpm(ppm);
    if image.None? { return None; }
    var Image(width, height, pixels) := image.value;
    var raw := Filter(pixels, width * 3, height);
    var idat := t.compress(raw);
    if width >= 0x1_0000_0000 || height >= 0x1_0000_0000 || |idat| >= 0x1_0000_0000 { return None; }
    png := Some(SIGNATURE + (Chunk(t, IHDR, Header(width, height)) + (Chunk(t, IDAT, idat) + Chunk(t, IEND, []))));
  }

  // ----- any valid header ----------------------------------------------------------------------------------------

  /** Whitespace and whole comments, in any mix. */
  predicate Gap(g: Bytes)
    decreases |g|
  {
    || g == []
    || (IsSpace(g[0]) && Gap(g[1..]))
    || (g[0] == HASH && FromNewline(g) != [] && Gap(FromNewline(g)))
  }

  lemma {:induction false} FromNewlineWithin(g: Bytes, rest: Bytes)
    requires FromNewline(g) != []
    ensures FromNewline(g + rest) == FromNewline(g) + rest
  {
    if g[0] != NEWLINE {
      assert (g + rest)[1..] == g[1..] + rest;
      FromNewlineWithin(g[1..], rest);
    }
  }

  lemma {:induction false} GapSkipped(g: Bytes, rest: Bytes)
    requires Gap(g) && rest != [] && !IsSpace(rest[0]) && rest[0] != HASH
    ensures Skipped(g + rest) == rest
    decreases |g|
  {
    if g == [] {
      assert g + rest == rest;
    } else if IsSpace(g[0]) {
      assert (g + rest)[1..] == g[1..] + rest;
      GapSkipped(g[1..], rest);
    } else {
      FromNewlineWithin(g, rest);
      GapSkipped(FromNewline(g), rest);
    }
  }

  lemma {:induction false} TokenWithin(t: Bytes, rest: Bytes)
    requires (forall i :: 0 <= i < |t| ==> !IsSpace(t[i])) && (rest == [] || IsSpace(rest[0]))
    ensures Token(t + rest) == t
  {
    if t == [] {
      assert t + rest == rest;
    } else {
      assert (t + rest)[1..] == t[1..] + rest;
      TokenWithin(t[1..], rest);
    }
  }

  lemma NumberAfterGap(g: Bytes, t: Bytes, rest: Bytes)
    requires Gap(g) && Numeral(t) && (rest == [] || IsSpace(rest[0]))
    ensures Number(g + (t + rest)) == Some(Scanned(Value(t), rest))
  {
    GapSkipped(g, t + rest);
    TokenWithin(t, rest);
    assert (t + rest)[|t|..] == rest;
  }

  /** A gap after a number starts with whitespace. */
  predicate Separates(g: Bytes) { Gap(g) && g != [] && IsSpace(g[0]) }

  function PpmFile(g0: Bytes, w: Bytes, g1: Bytes, h: Bytes, g2: Bytes, maxval: Bytes, space: int, pixels: Bytes)
    : Bytes
  {
    [80, 54] + (g0 + (w + (g1 + (h + (g2 + (maxval + ([space] + pixels)))))))
  }

  /** A header, with whatever follows its last number: nothing, or a whitespace byte and the pixels. */
  function Headed(g0: Bytes, w: Bytes, g1: Bytes, h: Bytes, g2: Bytes, maxval: Bytes, tail: Bytes): Bytes {
    [80, 54] + (g0 + (w + (g1 + (h + (g2 + (maxval + tail))))))
  }

  predicate Spaced(g0: Bytes, w: Bytes, g1: Bytes, h: Bytes, g2: Bytes, maxval: Bytes, tail: Bytes) {
    && Gap(g0) && Separates(g1) && Separates(g2) && Numeral(w) && Numeral(h) && Numeral(maxval)
    && (tail == [] || IsSpace(tail[0]))
  }

  lemma HeadIsRead(g0: Bytes, w: Bytes, g1: Bytes, h: Bytes, g2: Bytes, maxval: Bytes, tail: Bytes)
    requires Spaced(g0, w, g1, h, g2, maxval, tail)
    ensures Parse(Headed(g0, w, g1, h, g2, maxval, tail)) == Some(Cropped(Value(w), Value(h), Drop(tail, 1)))
  {
    var fromH := g2 + (maxval + tail);
    var fromW := g1 + (h + fromH);
    NumberAfterGap(g0, w, fromW);
    NumberAfterGap(g1, h, fromH);
    NumberAfterGap(g2, maxval, tail);
    assert Headed(g0, w, g1, h, g2, maxval, tail)[2..] == g0 + (w + fromW);
  }

  /** However a valid header is spaced and commented, its numbers and pixels are read. */
  lemma HeaderIsRead(g0: Bytes, w: Bytes, g1: Bytes, h: Bytes, g2: Bytes, maxval: Bytes, space: int, pixels: Bytes)
    requires Gap(g0) && Separates(g1) && Separates(g2) && IsSpace(space)
    requires Numeral(w) && Numeral(h) && Numeral(maxval)
    ensures Parse(PpmFile(g0, w, g1, h, g2, maxval, space, pixels))
            == Some(Cropped(Value(w), Value(h), pixels))
  {
    var tail := [space] + pixels;
    HeadIsRead(g0, w, g1, h, g2, maxval, tail);
    assert Drop(tail, 1) == pixels;
  }

  // ----- and nothing else is read --------------------------------------------------------------------------------

  /** A comment ends before the next newline. */
  lemma {:induction false} CommentForm(data: Bytes) returns (c: Bytes)
    requires FromNewline(data) != []
    ensures data == c + FromNewline(data) && FromNewline(data)[0] == NEWLINE
    ensures forall i :: 0 <= i < |c| ==> c[i] != NEWLINE
    ensures data[0] != NEWLINE ==> c != [] && c[0] == data[0]
  {
    if data[0] == NEWLINE {
      c := [];
    } else {
      var more := CommentForm(data[1..]);
      c := [data[0]] + more;
    }
  }

  lemma {:induction false} FromNewlineOf(c: Bytes, rest: Bytes)
    requires (forall i :: 0 <= i < |c| ==> c[i] != NEWLINE) && rest != [] && rest[0] == NEWLINE
    ensures FromNewline(c + rest) == rest
  {
    if c == [] {
      assert c + rest == rest;
    } else {
      assert (c + rest)[1..] == c[1..] + rest;
      FromNewlineOf(c[1..], rest);
    }
  }

  /** What is skipped before a token is a gap. */
  lemma {:induction false} SkippedForm(data: Bytes) returns (g: Bytes)
    requires Skipped(data) != []
    ensures data == g + Skipped(data) && Gap(g)
    ensures !IsSpace(Skipped(data)[0]) && Skipped(data)[0] != HASH
    decreases |data|
  {
    if IsSpace(data[0]) {
      var more := SkippedForm(data[1..]);
      g := [data[0]] + more;
      assert g[1..] == more;
    } else if data[0] == HASH {
      var c := CommentForm(data);
      var more := SkippedForm(FromNewline(data));
      g := c + more;
      CommentGap(c, more, Skipped(data));
    } else {
      g := [];
    }
  }

  lemma CommentGap(c: Bytes, more: Bytes, rest: Bytes)
    requires c != [] && c[0] == HASH && forall i :: 0 <= i < |c| ==> c[i] != NEWLINE
    requires Gap(more) && more + rest != [] && (more + rest)[0] == NEWLINE && rest != [] && !IsSpace(rest[0])
    ensures Gap(c + more)
  {
    assert [] + rest == rest;
    assert more != [] && more[0] == NEWLINE;
    FromNewlineOf(c, more);
  }

  lemma {:induction false} TokenForm(data: Bytes)
    ensures var t := Token(data);
            |t| <= |data| && data == t + data[|t|..] && (data[|t|..] == [] || IsSpace(data[|t|..][0]))
  {
    if data != [] && !IsSpace(data[0]) { TokenForm(data[1..]); }
  }

  lemma NumberForm(data: Bytes) returns (g: Bytes, t: Bytes, rest: Bytes)
    requires Number(data).Some?
    ensures data == g + (t + rest) && Gap(g) && Numeral(t) && (rest == [] || IsSpace(rest[0]))
    ensures Number(data).value == Scanned(Value(t), rest)
  {
    var from := Skipped(data);
    g := SkippedForm(data);
    t := Token(from);
    TokenForm(from);
    rest := from[|t|..];
  }

  /** A gap before a number that follows a number starts with whitespace. */
  lemma Separated(g: Bytes, t: Bytes, rest: Bytes)
    requires Gap(g) && Numeral(t) && g + (t + rest) != [] && IsSpace((g + (t + rest))[0])
    ensures Separates(g)
  {
    assert [] + (t + rest) == t + rest && (t + rest)[0] == t[0];
  }

  ghost predicate IsPpm(data: Bytes) {
    exists g0: Bytes, w: Bytes, g1: Bytes, h: Bytes, g2: Bytes, maxval: Bytes, tail: Bytes ::
      Spaced(g0, w, g1, h, g2, maxval, tail) && data == Headed(g0, w, g1, h, g2, maxval, tail)
  }

  /** A file is read exactly when it begins with "P6" and three numbers, with whitespace and comments between them. */
  lemma ParseExactly(data: Bytes)
    ensures Parse(data).Some? <==> IsPpm(data)
  {
    if Parse(data).Some? {
      var g0, w, fromW := NumberForm(data[2..]);
      var g1, h, fromH := NumberForm(fromW);
      var g2, maxval, tail := NumberForm(fromH);
      SeparatedBoth(fromW, g1, h, fromH);
      SeparatedBoth(fromH, g2, maxval, tail);
      assert data == [80, 54] + data[2..];
      assert Spaced(g0, w, g1, h, g2, maxval, tail) && data == Headed(g0, w, g1, h, g2, maxval, tail);
    }
    if IsPpm(data) {
      var g0: Bytes, w: Bytes, g1: Bytes, h: Bytes, g2: Bytes, maxval: Bytes, tail: Bytes :|
        Spaced(g0, w, g1, h, g2, maxval, tail) && data == Headed(g0, w, g1, h, g2, maxval, tail);
      HeadIsRead(g0, w, g1, h, g2, maxval, tail);
    }
  }

  lemma SeparatedBoth(data: Bytes, g: Bytes, t: Bytes, rest: Bytes)
    requires data == g + (t + rest) && Gap(g) && Numeral(t) && (data == [] || IsSpace(data[0]))
    ensures Separates(g)
  {
    Separated(g, t, rest);
  }

  // ----- reading the PNG back ------------------------------------------------------------------------------------

  datatype Read = Read(tag: Bytes, data: Bytes)

  /** The chunks of a file after its signature (section 3.2): length, type, data and a CRC that fits. */
  function Chunks(t: Tools, b: Bytes): Option<seq<Read>>
    decreases |b|
  {
    if b == [] then Some([])
    else if |b| < 12 || Unsigned(b[..4]) < 0 || |b| < 12 + Unsigned(b[..4]) then None
    else
      var n := Unsigned(b[..4]);
      var rest := Chunks(t, b[12 + n..]);
      if rest.None? || Unsigned(b[8 + n..12 + n]) != t.crc(b[4..8 + n]) then None
      else Some([Read(b[4..8], b[8..8 + n])] + rest.value)
  }

  /** Removing the filter type of every scanline, all of which must be "None" (section 6.2). */
  function Unfiltered(raw: Bytes, stride: nat): Option<Bytes>
    decreases |raw|
  {
    if raw == [] then Some([])
    else if raw[0] != 0 || |raw| < 1 + stride then None
    else
      var rest := Unfiltered(raw[1 + stride..], stride);
      if rest.None? then None else Some(raw[1..1 + stride] + rest.value)
  }

  function Power(k: nat): nat { if k == 0 then 1 else 256 * Power(k - 1) }

  lemma {:induction false} BigEndianReads(n: nat, k: nat)
    requires n < Power(k)
    ensures Unsigned(BigEndian(n, k)) == n
    decreases k
  {
    if k > 0 {
      BigEndianReads(n / 256, k - 1);
      assert BigEndian(n, k)[..k - 1] == BigEndian(n / 256, k - 1);
    }
  }

  lemma FourBytesRead(n: nat)
    requires n < 0x1_0000_0000
    ensures Unsigned(BigEndian(n, 4)) == n
  {
    assert Power(4) == 256 * Power(3) == 256 * (256 * Power(2));
    BigEndianReads(n, 4);
  }

  /** Where the parts of a chunk are in a longer file. */
  lemma ChunkParts(n: Bytes, tag: Bytes, data: Bytes, crc: Bytes, rest: Bytes)
    requires |n| == 4 && |tag| == 4 && |crc| == 4
    ensures var b, k := n + tag + data + crc + rest, |data|;
            && b[..4] == n && b[4..8] == tag && b[8..8 + k] == data && b[4..8 + k] == tag + data
            && b[8 + k..12 + k] == crc && b[12 + k..] == rest
  {
  }

  lemma ChunkFirst(t: Tools, n: Bytes, tag: Bytes, data: Bytes, crc: Bytes, rest: Bytes, found: seq<Read>)
    requires |n| == 4 && |tag| == 4 && |crc| == 4 && Chunks(t, rest) == Some(found)
    requires Unsigned(n) == |data| && Unsigned(crc) == t.crc(tag + data)
    ensures Chunks(t, n + tag + data + crc + rest) == Some([Read(tag, data)] + found)
  {
    ChunkParts(n, tag, data, crc, rest);
  }

  lemma ChunkShape(t: Tools, tag: Bytes, data: Bytes) returns (n: Bytes, crc: Bytes)
    requires Work(t) && |data| < 0x1_0000_0000
    ensures |n| == 4 && |crc| == 4 && Chunk(t, tag, data) == n + tag + data + crc
    ensures Unsigned(n) == |data| && Unsigned(crc) == t.crc(tag + data)
  {
    var sum := t.crc(tag + data);
    assert sum % 0x1_0000_0000 == sum;
    n, crc := BigEndian(|data|, 4), BigEndian(sum, 4);
    FourBytesRead(|data|);
    FourBytesRead(sum);
  }

  lemma ChunkReads(t: Tools, tag: Bytes, data: Bytes, rest: Bytes, found: seq<Read>)
    requires Work(t) && |tag| == 4 && |data| < 0x1_0000_0000 && Chunks(t, rest) == Some(found)
    ensures Chunks(t, Chunk(t, tag, data) + rest) == Some([Read(tag, data)] + found)
  {
    var n, crc := ChunkShape(t, tag, data);
    ChunkFirst(t, n, tag, data, crc, rest, found);
  }

  /** A file of three chunks. */
  lemma ThreeChunks(t: Tools, a: Bytes, b: Bytes, c: Bytes)
    requires Work(t) && |a| < 0x1_0000_0000 && |b| < 0x1_0000_0000 && |c| < 0x1_0000_0000
    ensures Chunks(t, Chunk(t, IHDR, a) + (Chunk(t, IDAT, b) + Chunk(t, IEND, c)))
            == Some([Read(IHDR, a), Read(IDAT, b), Read(IEND, c)])
  {
    assert Chunk(t, IEND, c) + [] == Chunk(t, IEND, c);
    assert [Read(IEND, c)] + [] == [Read(IEND, c)];
    assert [Read(IDAT, b)] + [Read(IEND, c)] == [Read(IDAT, b), Read(IEND, c)];
    assert [Read(IHDR, a)] + [Read(IDAT, b), Read(IEND, c)] == [Read(IHDR, a), Read(IDAT, b), Read(IEND, c)];
    ChunkReads(t, IEND, c, [], []);
    ChunkReads(t, IDAT, b, Chunk(t, IEND, c), [Read(IEND, c)]);
    ChunkReads(t, IHDR, a, Chunk(t, IDAT, b) + Chunk(t, IEND, c), [Read(IDAT, b), Read(IEND, c)]);
  }

  /** A filter byte a line, and every pixel byte there is. */
  lemma {:induction false} ScanlinesLength(pixels: Bytes, stride: nat, height: nat)
    ensures |Scanlines(pixels, stride, height)| == height + Min(|pixels|, height * stride)
  {
    if height > 0 {
      ScanlinesLength(pixels, stride, height - 1);
      assert height * stride == (height - 1) * stride + stride;
    }
  }

  lemma OneLine(line: Bytes, stride: nat)
    requires |line| == stride
    ensures Unfiltered([0] + line, stride) == Some(line)
  {
    var raw := [0] + line;
    assert raw[1..1 + stride] == line && raw[1 + stride..] == [];
    assert Unfiltered([], stride) == Some([]);
    assert line + [] == line;
  }

  /** One more line first. */
  lemma LineThen(line: Bytes, rest: Bytes, stride: nat)
    requires |line| == stride && Unfiltered(rest, stride).Some?
    ensures Unfiltered([0] + line + rest, stride) == Some(line + Unfiltered(rest, stride).value)
  {
    var raw := [0] + line + rest;
    assert raw[1..1 + stride] == line && raw[1 + stride..] == rest;
  }

  lemma {:induction false} UnfilteredTogether(raw: Bytes, line: Bytes, stride: nat)
    requires Unfiltered(raw, stride).Some? && |line| == stride
    ensures Unfiltered(raw + ([0] + line), stride) == Some(Unfiltered(raw, stride).value + line)
    decreases |raw|
  {
    if raw == [] {
      OneLine(line, stride);
      assert [] + ([0] + line) == [0] + line && [] + line == line;
      return;
    }
    var first, tail := raw[1..1 + stride], raw[1 + stride..];
    UnfilteredTogether(tail, line, stride);
    assert raw == [0] + first + tail;
    LineBefore(first, tail, line, stride);
  }

  lemma LineBefore(first: Bytes, tail: Bytes, line: Bytes, stride: nat)
    requires |first| == stride && Unfiltered(tail, stride).Some?
    requires Unfiltered(tail + ([0] + line), stride) == Some(Unfiltered(tail, stride).value + line)
    ensures Unfiltered([0] + first + tail, stride).Some?
    ensures Unfiltered([0] + first + tail + ([0] + line), stride)
            == Some(Unfiltered([0] + first + tail, stride).value + line)
  {
    LineThen(first, tail, stride);
    LineThen(first, tail + ([0] + line), stride);
    Regroup(first, Unfiltered(tail, stride).value, line);
    Regroup([0] + first, tail, [0] + line);
  }

  lemma Regroup(a: Bytes, b: Bytes, c: Bytes)
    ensures a + (b + c) == a + b + c
  {
  }

  lemma TakeMore(pixels: Bytes, before: nat, stride: nat)
    requires before + stride <= |pixels|
    ensures |Take(Drop(pixels, before), stride)| == stride
    ensures Take(pixels, before) + Take(Drop(pixels, before), stride) == Take(pixels, before + stride)
  {
  }

  lemma ProductStep(height: nat, stride: nat)
    requires height > 0
    ensures height * stride == (height - 1) * stride + stride
  {
  }

  lemma {:induction false} ScanlinesUnfilter(pixels: Bytes, stride: nat, height: nat)
    requires height * stride <= |pixels|
    ensures Unfiltered(Scanlines(pixels, stride, height), stride) == Some(Take(pixels, height * stride))
  {
    if height == 0 {
      assert Take(pixels, 0) == [];
      return;
    }
    ProductStep(height, stride);
    ScanlinesUnfilter(pixels, stride, height - 1);
    var raw, before := Scanlines(pixels, stride, height - 1), (height - 1) * stride;
    LineAdded(raw, Scanlines(pixels, stride, height), pixels, before, height * stride, stride);
  }

  lemma LineAdded(raw: Bytes, full: Bytes, pixels: Bytes, before: nat, total: nat, stride: nat)
    requires total == before + stride <= |pixels| && Unfiltered(raw, stride) == Some(Take(pixels, before))
    requires full == raw + ([0] + Take(Drop(pixels, before), stride))
    ensures Unfiltered(full, stride) == Some(Take(pixels, total))
  {
    TakeMore(pixels, before, stride);
    UnfilteredTogether(raw, Take(Drop(pixels, before), stride), stride);
  }

  lemma Products(width: nat, height: nat)
    ensures height * (width * 3) == width * height * 3
    ensures height * (3 * width + 1) == width * height * 3 + height
  {
    var area := width * height;
    assert height * (width * 3) == area * 3;
  }

  /** The uncompressed data has the length PNG requires exactly when the file holds all the pixels its header
      promises. */
  lemma ScanlinesCompleteExactly(width: nat, height: nat, data: Bytes)
    ensures |Scanlines(Take(data, width * height * 3), width * 3, height)| == height * (3 * width + 1)
            <==> |data| >= width * height * 3
  {
    Products(width, height);
    ScanlinesLength(Take(data, width * height * 3), width * 3, height);
  }

  lemma PixelsComeBack(image: Image)
    requires |image.pixels| == image.width * image.height * 3
    ensures var raw := Scanlines(image.pixels, image.width * 3, image.height);
            && |raw| == image.height * (3 * image.width + 1)
            && Unfiltered(raw, image.width * 3) == Some(image.pixels)
  {
    Products(image.width, image.height);
    assert Take(image.pixels, image.width * image.height * 3) == image.pixels;
    ScanlinesCompleteExactly(image.width, image.height, image.pixels);
    ScanlinesUnfilter(image.pixels, image.width * 3, image.height);
  }

  /** What a PNG reader gets back from the conversion of a picture that has all its pixels: three chunks, a header with
      its size, and the pixels. */
  lemma ConversionReadsBack(t: Tools, image: Image)
    requires Work(t) && |image.pixels| == image.width * image.height * 3 && Encode(t, image).Some?
    ensures var png, raw := Encode(t, image).value, Scanlines(image.pixels, image.width * 3, image.height);
            && SIGNATURE <= png
            && Chunks(t, png[8..]) == Some([Read(IHDR, Header(image.width, image.height)),
                                            Read(IDAT, t.compress(raw)), Read(IEND, [])])
            && t.decompress(t.compress(raw)) == raw
            && |raw| == image.height * (3 * image.width + 1)
            && Unfiltered(raw, image.width * 3) == Some(image.pixels)
    ensures var header := Header(image.width, image.height);
            |header| == 13 && Unsigned(header[..4]) == image.width && Unsigned(header[4..8]) == image.height
  {
    FileReads(t, image.width, image.height, t.compress(Scanlines(image.pixels, image.width * 3, image.height)));
    PixelsComeBack(image);
    HeaderReads(image.width, image.height);
  }

  /** What a PNG reader shows: the picture of a file with a sound header and data chunk, and with all the data that its
      header promises. */
  function Viewed(t: Tools, png: Bytes): Option<Image> {
    if !(SIGNATURE <= png) then None
    else
      var chunks := Chunks(t, png[8..]);
      if chunks.None? || |chunks.value| != 3 || chunks.value[0].tag != IHDR || chunks.value[1].tag != IDAT
         || chunks.value[2] != Read(IEND, []) || |chunks.value[0].data| != 13
      then None
      else ViewedParts(chunks.value[0].data, t.decompress(chunks.value[1].data))
  }

  function ViewedParts(header: Bytes, raw: Bytes): Option<Image>
    requires |header| == 13
  {
    var width, height := Unsigned(header[..4]), Unsigned(header[4..8]);
    if width < 0 || height < 0 || header[8..] != [8, 2, 0, 0, 0] then None else ViewedData(width, height, raw)
  }

  function ViewedData(width: nat, height: nat, raw: Bytes): Option<Image> {
    var pixels := Unfiltered(raw, width * 3);
    if |raw| != height * (3 * width + 1) || pixels.None? then None else Some(Image(width, height, pixels.value))
  }

  /** From the dump to the viewer: of any valid P6 file that is converted, a PNG reader shows the picture, size and
      pixels, if and only if the file holds every pixel its header promises; otherwise it shows nothing. */
  lemma DumpIsShownExactly(t: Tools, g0: Bytes, w: Bytes, g1: Bytes, h: Bytes, g2: Bytes, maxval: Bytes, space: int,
                           pixels: Bytes)
    requires Gap(g0) && Separates(g1) && Separates(g2) && IsSpace(space)
    requires Numeral(w) && Numeral(h) && Numeral(maxval) && Work(t)
    ensures var image := Cropped(Value(w), Value(h), pixels);
            Converted(t, PpmFile(g0, w, g1, h, g2, maxval, space, pixels)).Some? <==>
              && image.width <= 0xFFFF_FFFF && image.height <= 0xFFFF_FFFF
              && |t.compress(Scanlines(image.pixels, image.width * 3, image.height))| <= 0xFFFF_FFFF
    ensures var png := Converted(t, PpmFile(g0, w, g1, h, g2, maxval, space, pixels));
            png.Some? ==>
              Viewed(t, png.value) == if Complete(Value(w), Value(h), pixels)
                                      then Some(Cropped(Value(w), Value(h), pixels)) else None
  {
    HeaderIsRead(g0, w, g1, h, g2, maxval, space, pixels);
    CroppedIsViewed(t, Value(w), Value(h), pixels);
  }

  lemma CroppedIsViewed(t: Tools, width: nat, height: nat, pixels: Bytes)
    requires Work(t)
    ensures var image := Cropped(width, height, pixels);
            Encode(t, image).Some? ==>
              Viewed(t, Encode(t, image).value) == if Complete(width, height, pixels) then Some(image) else None
  {
    var image := Cropped(width, height, pixels);
    if Encode(t, image).Some? {
      var raw := Scanlines(image.pixels, width * 3, height);
      FileReads(t, width, height, t.compress(raw));
      HeaderReads(width, height);
      FileIsViewed(t, Encode(t, image).value, Header(width, height), raw);
      ScanlinesAreViewed(width, height, pixels);
      HeaderViewed(width, height, raw);
    }
  }

  lemma FileIsViewed(t: Tools, png: Bytes, header: Bytes, raw: Bytes)
    requires Work(t) && SIGNATURE <= png && |header| == 13
    requires Chunks(t, png[8..]) == Some([Read(IHDR, header), Read(IDAT, t.compress(raw)), Read(IEND, [])])
    ensures Viewed(t, png) == ViewedParts(header, raw)
  {
  }

  lemma HeaderViewed(width: nat, height: nat, raw: Bytes)
    requires width < 0x1_0000_0000 && height < 0x1_0000_0000 && |Header(width, height)| == 13
    ensures ViewedParts(Header(width, height), raw) == ViewedData(width, height, raw)
  {
    HeaderReads(width, height);
  }

  lemma ScanlinesAreViewed(width: nat, height: nat, pixels: Bytes)
    ensures var image := Cropped(width, height, pixels);
            ViewedData(width, height, Scanlines(image.pixels, width * 3, height))
            == if Complete(width, height, pixels) then Some(image) else None
  {
    ScanlinesCompleteExactly(width, height, pixels);
    if Complete(width, height, pixels) { PixelsComeBack(Cropped(width, height, pixels)); }
  }

  lemma FileReads(t: Tools, width: nat, height: nat, idat: Bytes)
    requires Work(t) && width < 0x1_0000_0000 && height < 0x1_0000_0000 && |idat| < 0x1_0000_0000
    ensures var header := Header(width, height);
            var png := SIGNATURE + (Chunk(t, IHDR, header) + (Chunk(t, IDAT, idat) + Chunk(t, IEND, [])));
            && SIGNATURE <= png
            && Chunks(t, png[8..]) == Some([Read(IHDR, header), Read(IDAT, idat), Read(IEND, [])])
  {
    ThreeChunks(t, Header(width, height), idat, []);
    var body := Chunk(t, IHDR, Header(width, height)) + (Chunk(t, IDAT, idat) + Chunk(t, IEND, []));
    assert (SIGNATURE + body)[8..] == body;
  }

  lemma HeaderReads(width: nat, height: nat)
    requires width < 0x1_0000_0000 && height < 0x1_0000_0000
    ensures var h := Header(width, height);
            |h| == 13 && Unsigned(h[..4]) == width && Unsigned(h[4..8]) == height && h[8..] == [8, 2, 0, 0, 0]
  {
    FourBytesRead(width);
    FourBytesRead(height);
    assert Header(width, height)[..4] == BigEndian(width, 4);
    assert Header(width, height)[4..8] == BigEndian(height, 4);
  }
}
