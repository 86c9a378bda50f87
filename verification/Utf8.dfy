/** Decoding UTF-8 while ignoring errors: every maximal malformed part is dropped (section 3 of RFC 3629 gives the
    well-formed byte sequences). */
module Utf8 {
  import opened Basics
  import opened Bytes

  type Point = nat

  predicate Continuation(b: Byte) { 0x80 <= b < 0xC0 }

  /** The length a lead byte announces; zero for a byte that cannot lead. */
  function Announced(b: Byte): nat {
    if b < 0x80 then 1
    else if 0xC2 <= b < 0xE0 then 2
    else if 0xE0 <= b < 0xF0 then 3
    else if 0xF0 <= b < 0xF5 then 4
    else 0
  }

  predicate SecondFits(lead: Byte, b: Byte) {
    && Continuation(b)
    && (lead == 0xE0 ==> b >= 0xA0)
    && (lead == 0xED ==> b < 0xA0)
    && (lead == 0xF0 ==> b >= 0x90)
    && (lead == 0xF4 ==> b < 0x90)
  }

  /** Six more bits of a code point. */
  function Append(high: nat, b: Byte): Point
    requires Continuation(b)
  { high * 64 + (b - 0x80) }

  datatype Piece = Piece(size: nat, point: Option<Point>)

  /** The first character, or the malformed part to drop. */
  function First(s: seq<Byte>): (p: Piece)
    requires s != []
    ensures 0 < p.size <= |s|
  {
    var n := Announced(s[0]);
    if n == 1 then Piece(1, Some(s[0]))
    else if n == 0 || |s| < 2 || !SecondFits(s[0], s[1]) then Piece(1, None)
    else if n == 2 then Piece(2, Some(Append(s[0] - 0xC0, s[1])))
    else if |s| < 3 || !Continuation(s[2]) then Piece(2, None)
    else if n == 3 then Piece(3, Some(Append(Append(s[0] - 0xE0, s[1]), s[2])))
    else if |s| < 4 || !Continuation(s[3]) then Piece(3, None)
    else Piece(4, Some(Append(Append(Append(s[0] - 0xF0, s[1]), s[2]), s[3])))
  }

  function Decode(s: seq<Byte>): seq<Point> {
    if s == [] then []
    else
      var p := First(s);
      Shown(p) + Decode(s[p.size..])
  }

  predicate Ascii(s: seq<int>) { forall i :: 0 <= i < |s| ==> 0 <= s[i] < 0x80 }

  function Shown(p: Piece): seq<Point> { if p.point.Some? then [p.point.value] else [] }

  lemma DecodeFirst(s: seq<Byte>, p: Piece, rest: seq<Byte>)
    requires s != [] && First(s) == p && s[p.size..] == rest
    ensures Decode(s) == Shown(p) + Decode(rest)
  {
  }

  lemma DecodeDropped(s: seq<Byte>)
    requires s != [] && First(s).point.None?
    ensures Decode(s) == Decode(s[First(s).size..])
  {
    assert [] + Decode(s[First(s).size..]) == Decode(s[First(s).size..]);
  }

  lemma Glue(first: seq<Point>, middle: seq<Point>, last: seq<Point>)
    ensures first + (middle + last) == (first + middle) + last
  {
  }

  /** A byte that continues nothing always ends what comes before it. */
  lemma {:induction false} DecodeSplit(a: seq<Byte>, t: seq<Byte>)
    requires t == [] || !Continuation(t[0])
    ensures Decode(a + t) == Decode(a) + Decode(t)
    decreases |a|
  {
    if a == [] {
      assert a + t == t;
    } else {
      var p := First(a);
      var u := a[p.size..];
      FirstSplit(a, t);
      assert (a + t)[p.size..] == u + t;
      DecodeSplit(u, t);
      DecodeFirst(a, p, u);
      DecodeFirst(a + t, p, u + t);
      Glue(Shown(p), Decode(u), Decode(t));
    }
  }

  lemma FirstSplit(a: seq<Byte>, t: seq<Byte>)
    requires a != [] && (t == [] || !Continuation(t[0]))
    ensures First(a + t) == First(a)
  {
    forall i | 0 <= i < |a| ensures (a + t)[i] == a[i] {
    }
  }

  // ----- encoding ------------------------------------------------------------------------------------------------

  /** Every code point but the surrogates. */
  predicate Scalar(p: Point) { p < 0xD800 || 0xE000 <= p < 0x110000 }

  predicate Scalars(s: seq<Point>) { forall i :: 0 <= i < |s| ==> Scalar(s[i]) }

  function EncodeOne(p: Point): (s: seq<Byte>)
    requires Scalar(p)
    ensures 1 <= |s| <= 4
  {
    if p < 0x80 then [p]
    else if p < 0x800 then [0xC0 + p / 64, 0x80 + p % 64]
    else if p < 0x10000 then [0xE0 + p / 4096, 0x80 + p / 64 % 64, 0x80 + p % 64]
    else [0xF0 + p / 262144, 0x80 + p / 4096 % 64, 0x80 + p / 64 % 64, 0x80 + p % 64]
  }

  function Encode(s: seq<Point>): seq<Byte>
    requires Scalars(s)
  { if s == [] then [] else EncodeOne(s[0]) + Encode(s[1..]) }

  lemma SixBits(p: nat)
    ensures p == p / 64 * 64 + p % 64
    ensures p / 64 == p / 4096 * 64 + p / 64 % 64
    ensures p / 4096 == p / 262144 * 64 + p / 4096 % 64
  {
    var a, b := p / 64, p / 4096;
    assert a / 64 == b && b / 64 == p / 262144;
  }

  lemma EncodedFirst(p: Point, rest: seq<Byte>)
    requires Scalar(p)
    ensures First(EncodeOne(p) + rest) == Piece(|EncodeOne(p)|, Some(p))
  {
    SixBits(p);
  }

  /** Decoding undoes encoding, whatever follows. */
  lemma {:induction false} DecodeText(s: seq<Point>, rest: seq<Byte>)
    requires Scalars(s)
    ensures Decode(Encode(s) + rest) == s + Decode(rest)
  {
    if s == [] {
      assert Encode(s) + rest == rest;
    } else {
      var one, more := EncodeOne(s[0]), Encode(s[1..]);
      assert Encode(s) + rest == one + (more + rest);
      EncodedFirst(s[0], more + rest);
      DecodeText(s[1..], rest);
      DecodeFirst(one + (more + rest), Piece(|one|, Some(s[0])), more + rest);
      assert [s[0]] + (s[1..] + Decode(rest)) == s + Decode(rest);
    }
  }

  lemma DecodeEncode(s: seq<Point>)
    requires Scalars(s)
    ensures Decode(Encode(s)) == s
  {
    DecodeText(s, []);
    assert Encode(s) + [] == Encode(s);
  }

  lemma {:induction false} EncodeSplit(a: seq<Point>, b: seq<Point>)
    requires Scalars(a) && Scalars(b)
    ensures Encode(a + b) == Encode(a) + Encode(b)
  {
    if a == [] {
      assert a + b == b;
    } else {
      assert (a + b)[1..] == a[1..] + b;
      EncodeSplit(a[1..], b);
    }
  }

  /** ASCII text is its own encoding. */
  lemma {:induction false} EncodeAscii(s: seq<Byte>)
    requires Ascii(s)
    ensures Encode(s) == s
  {
    if s != [] { EncodeAscii(s[1..]); }
  }

  /** A text's bytes begin with one that continues nothing. */
  lemma EncodeStarts(s: seq<Point>)
    requires Scalars(s) && s != []
    ensures Encode(s) != [] && !Continuation(Encode(s)[0])
  {
  }

  /** The bytes are the encoding of some text. */
  predicate WellFormed(s: seq<Byte>) {
    var text := Decode(s);
    Scalars(text) && Encode(text) == s
  }

  // ----- replacing instead of ignoring ---------------------------------------------------------------------------

  const REPLACEMENT: Point := 0xFFFD

  /** Decoding that puts the replacement character for every malformed part. */
  function Replaced(s: seq<Byte>): seq<Point> {
    if s == [] then []
    else
      var p := First(s);
      [if p.point.Some? then p.point.value else REPLACEMENT] + Replaced(s[p.size..])
  }

  lemma {:induction false} ReplacedText(text: seq<Point>)
    requires Scalars(text)
    ensures Replaced(Encode(text)) == text
  {
    if text != [] {
      var one, more := EncodeOne(text[0]), Encode(text[1..]);
      EncodedFirst(text[0], more);
      ReplacedText(text[1..]);
      assert (one + more)[|one|..] == more;
    }
  }

  /** Well-formed bytes show as what they are, so different ones show differently. */
  lemma WellFormedShowApart(a: seq<Byte>, b: seq<Byte>)
    requires WellFormed(a) && WellFormed(b)
    ensures Replaced(a) == Replaced(b) <==> a == b
  {
    ReplacedText(Decode(a));
    ReplacedText(Decode(b));
  }

  // ----- searching decoded text ----------------------------------------------------------------------------------

  /** Decoding hides no text: a term whose encoding occurs in the bytes occurs in what they decode to. */
  lemma DecodeKeepsText(s: seq<Byte>, term: seq<Point>)
    requires Scalars(term) && term != [] && Occurs(s, Encode(term))
    ensures Occurs(Decode(s), term)
  {
    var e := Encode(term);
    var at :| 0 <= at <= |s| && At(s, e, at);
    var a, rest := s[..at], s[at + |e|..];
    assert s == a + (e + rest);
    EncodeStarts(term);
    DecodeSplit(a, e + rest);
    DecodeText(term, rest);
    Glue(Decode(a), term, Decode(rest));
    Inside(Decode(a), term, Decode(rest));
  }

  /** A decoded character is the one its bytes encode. */
  lemma FirstIsEncoded(s: seq<Byte>)
    requires s != [] && First(s).point.Some?
    ensures Scalar(First(s).point.value) && EncodeOne(First(s).point.value) == s[..First(s).size]
  {
    if s[0] >= 0x80 { Unpacked(s); }
  }

  /** The bits come apart as they were put together. */
  lemma Unpacked(s: seq<Byte>)
    requires s != [] && s[0] >= 0x80 && First(s).point.Some?
    ensures Scalar(First(s).point.value) && EncodeOne(First(s).point.value) == s[..First(s).size]
  {
    var n := First(s).size;
    if n == 2 {
      TwoBytes(s[0], s[1]);
      assert s[..2] == [s[0], s[1]];
    } else if n == 3 {
      ThreeBytes(s[0], s[1], s[2]);
      assert s[..3] == [s[0], s[1], s[2]];
    } else {
      FourBytes(s[0], s[1], s[2], s[3]);
      assert s[..4] == [s[0], s[1], s[2], s[3]];
    }
  }

  lemma TwoBytes(a: Byte, b: Byte)
    requires Announced(a) == 2 && SecondFits(a, b)
    ensures var p := Append(a - 0xC0, b); Scalar(p) && EncodeOne(p) == [a, b]
  {
    Unpacked2(a - 0xC0, b);
  }

  lemma ThreeBytes(a: Byte, b: Byte, c: Byte)
    requires Announced(a) == 3 && SecondFits(a, b) && Continuation(c)
    ensures var p := Append(Append(a - 0xE0, b), c); Scalar(p) && EncodeOne(p) == [a, b, c]
  {
    Unpacked3(a - 0xE0, b, c);
  }

  lemma FourBytes(a: Byte, b: Byte, c: Byte, d: Byte)
    requires Announced(a) == 4 && SecondFits(a, b) && Continuation(c) && Continuation(d)
    ensures var p := Append(Append(Append(a - 0xF0, b), c), d); Scalar(p) && EncodeOne(p) == [a, b, c, d]
  {
    Unpacked4(a - 0xF0, b, c, d);
    var p := Append(Append(Append(a - 0xF0, b), c), d);
    assert 0x10000 <= p < 0x110000;
    assert EncodeOne(p) == [0xF0 + p / 262144, 0x80 + p / 4096 % 64, 0x80 + p / 64 % 64, 0x80 + p % 64];
  }

  lemma Unpacked2(high: nat, a: Byte)
    requires Continuation(a)
    ensures Append(high, a) / 64 == high && 0x80 + Append(high, a) % 64 == a
  {
  }

  lemma Unpacked3(high: nat, a: Byte, b: Byte)
    requires Continuation(a) && Continuation(b)
    ensures var p := Append(Append(high, a), b); p / 4096 == high && 0x80 + p / 64 % 64 == a && 0x80 + p % 64 == b
  {
    var p := Append(Append(high, a), b);
    Unpacked2(Append(high, a), b);
    Unpacked2(high, a);
    SixBits(p);
    assert p / 4096 == p / 64 / 64;
  }

  lemma Unpacked4(high: nat, a: Byte, b: Byte, c: Byte)
    requires Continuation(a) && Continuation(b) && Continuation(c)
    ensures var p := Append(Append(Append(high, a), b), c);
            && p / 262144 == high && 0x80 + p / 4096 % 64 == a && 0x80 + p / 64 % 64 == b && 0x80 + p % 64 == c
  {
    var p := Append(Append(Append(high, a), b), c);
    Unpacked2(Append(Append(high, a), b), c);
    Unpacked3(high, a, b);
    assert p / 262144 == p / 64 / 4096 && p / 4096 == p / 64 / 64;
  }

  /** Only characters come out of decoding, and they take no more bytes than there were. */
  lemma {:induction false} DecodedLength(s: seq<Byte>)
    ensures Scalars(Decode(s)) && |Encode(Decode(s))| <= |s|
    decreases |s|
  {
    if s != [] {
      var p := First(s);
      DecodedLength(s[p.size..]);
      if p.point.Some? {
        FirstIsEncoded(s);
        assert ([p.point.value] + Decode(s[p.size..]))[1..] == Decode(s[p.size..]);
      } else {
        DecodeDropped(s);
      }
    }
  }

  /** Fewer bytes than a text takes cannot decode to something that holds it. */
  lemma TooFewBytes(s: seq<Byte>, term: seq<Point>)
    requires Scalars(term) && |s| < |Encode(term)|
    ensures !Occurs(Decode(s), term)
  {
    if Occurs(Decode(s), term) {
      DecodedLength(s);
      OccursEncoded(Decode(s), term);
    }
  }

  lemma OccursEncoded(text: seq<Point>, term: seq<Point>)
    requires Scalars(text) && Occurs(text, term)
    ensures Scalars(term) && |Encode(term)| <= |Encode(text)| && Occurs(Encode(text), Encode(term))
  {
    var at :| 0 <= at <= |text| && At(text, term, at);
    var a, b := text[..at], text[at + |term|..];
    assert text == a + (term + b);
    EncodeSplit(a, term + b);
    EncodeSplit(term, b);
    Glue(Encode(a), Encode(term), Encode(b));
    Inside(Encode(a), Encode(term), Encode(b));
  }

  lemma Inside(a: seq<int>, e: seq<int>, b: seq<int>)
    ensures Occurs(a + e + b, e)
  {
    assert At(e, e, 0);
    OccursInWider(a, e, b, e);
  }

  // ----- when decoding makes text appear -------------------------------------------------------------------------

  /** Characters, and after them only malformed parts. */
  predicate Run(s: seq<Byte>)
    decreases |s|
  {
    Decode(s) == [] || (First(s).point.Some? && Run(s[First(s).size..]))
  }

  /** No malformed part lies between two characters. */
  predicate Solid(s: seq<Byte>)
    decreases |s|
  {
    Run(s) || (First(s).point.None? && Solid(s[First(s).size..]))
  }

  /** Decoding makes no text appear whose encoding is not there. */
  ghost predicate AddsNothing(s: seq<Byte>) {
    forall term: seq<Point> :: Scalars(term) && Occurs(Decode(s), term) ==> Occurs(s, Encode(term))
  }

  /** Decoding makes text appear if and only if a malformed part lies between two characters: dropping it joins them. */
  lemma AddsNothingExactly(s: seq<Byte>)
    ensures AddsNothing(s) <==> Solid(s)
  {
    DecodedLength(s);
    if Solid(s) {
      SolidHoldsText(s);
      forall term: seq<Point> | Scalars(term) && Occurs(Decode(s), term) ensures Occurs(s, Encode(term)) {
        OccursEncoded(Decode(s), term);
        OccursTrans(s, Encode(Decode(s)), Encode(term));
      }
    }
    if AddsNothing(s) {
      assert At(Decode(s), Decode(s), 0);
      assert Occurs(Decode(s), Decode(s));
      TextMakesSolid(s);
    }
  }

  lemma {:induction false} RunStartsWithText(s: seq<Byte>)
    requires Run(s)
    ensures Scalars(Decode(s)) && |Encode(Decode(s))| <= |s| && At(s, Encode(Decode(s)), 0)
    decreases |s|
  {
    DecodedLength(s);
    if Decode(s) != [] {
      var p := First(s);
      var u := s[p.size..];
      FirstIsEncoded(s);
      RunStartsWithText(u);
      assert ([p.point.value] + Decode(u))[1..] == Decode(u);
      AtFront(s, p.size, Encode(Decode(u)));
    }
  }

  lemma AtFront(s: seq<Byte>, n: nat, e: seq<Byte>)
    requires n <= |s| && At(s[n..], e, 0)
    ensures At(s, s[..n] + e, 0)
  {
    assert s[n..][..|e|] == e;
    assert s[..n + |e|] == s[..n] + s[n..][..|e|];
  }

  lemma {:induction false} SolidHoldsText(s: seq<Byte>)
    requires Solid(s)
    ensures Scalars(Decode(s)) && Occurs(s, Encode(Decode(s)))
    decreases |s|
  {
    if Run(s) {
      RunStartsWithText(s);
      OccursIn(s, Encode(Decode(s)), 0);
    } else {
      var n := First(s).size;
      SolidHoldsText(s[n..]);
      DecodeDropped(s);
      OccursFurther(s, n, Encode(Decode(s[n..])));
    }
  }

  lemma OccursFurther(s: seq<Byte>, n: nat, sub: seq<Byte>)
    requires n <= |s| && Occurs(s[n..], sub)
    ensures Occurs(s, sub)
  {
    OccursInWider(s[..n], s[n..], [], sub);
    assert s[..n] + s[n..] + [] == s;
  }

  /** If the encoding of all decoded text occurs in one piece, nothing else lies around or inside it. */
  lemma TextMakesSolid(s: seq<Byte>)
    requires Scalars(Decode(s)) && Occurs(s, Encode(Decode(s)))
    ensures Solid(s)
  {
    var text := Decode(s);
    if text != [] {
      var e := Encode(text);
      var at :| 0 <= at <= |s| && At(s, e, at);
      var a, t := s[..at], s[at + |e|..];
      assert s == a + (e + t);
      EncodeStarts(text);
      DecodeSplit(a, e + t);
      DecodeText(text, t);
      assert |text| == |Decode(a)| + |text| + |Decode(t)|;
      RunOfText(text, t);
      SkipMalformed(a, e + t);
    }
  }

  lemma {:induction false} RunOfText(text: seq<Point>, t: seq<Byte>)
    requires Scalars(text) && Run(t)
    ensures Run(Encode(text) + t)
  {
    if text == [] {
      assert Encode(text) + t == t;
    } else {
      var one, more := EncodeOne(text[0]), Encode(text[1..]);
      assert Encode(text) + t == one + (more + t);
      EncodedFirst(text[0], more + t);
      RunOfText(text[1..], t);
      assert (one + (more + t))[|one|..] == more + t;
    }
  }

  lemma {:induction false} SkipMalformed(a: seq<Byte>, t: seq<Byte>)
    requires Decode(a) == [] && Solid(t) && (t == [] || !Continuation(t[0]))
    ensures Solid(a + t)
    decreases |a|
  {
    if a == [] {
      assert a + t == t;
    } else {
      var n := First(a).size;
      NothingFirst(a);
      FirstSplit(a, t);
      SkipMalformed(a[n..], t);
      DropOfSum(a, t, n);
      MalformedFirst(a + t, a[n..] + t);
    }
  }

  lemma NothingFirst(s: seq<Byte>)
    requires s != [] && Decode(s) == []
    ensures First(s).point.None? && Decode(s[First(s).size..]) == []
  {
  }

  lemma DropOfSum(a: seq<Byte>, t: seq<Byte>, n: nat)
    requires n <= |a|
    ensures (a + t)[n..] == a[n..] + t
  {
  }

  lemma MalformedFirst(s: seq<Byte>, rest: seq<Byte>)
    requires s != [] && First(s).point.None? && s[First(s).size..] == rest && Solid(rest)
    ensures Solid(s)
  {
  }

  /** Any stretch of well-formed bytes is solid, wherever it is cut out. */
  lemma {:induction false} SliceIsSolid(text: seq<Point>, i: nat, j: nat)
    requires Scalars(text) && i <= j <= |Encode(text)|
    ensures Solid(Encode(text)[i..j])
  {
    if i == 0 {
      PrefixIsRun(text, j);
      assert Encode(text)[0..j] == Encode(text)[..j];
    } else if text != [] {
      var one, more := EncodeOne(text[0]), Encode(text[1..]);
      var n := |one|;
      SliceOfSum(one, more, i, j);
      if n <= i {
        SliceIsSolid(text[1..], i - n, j - n);
      } else if j <= n {
        CharacterTail(text[0], i, j, []);
      } else {
        PrefixIsRun(text[1..], j - n);
        CharacterTail(text[0], i, n, more[..j - n]);
      }
    }
  }

  lemma SliceOfSum(a: seq<Byte>, b: seq<Byte>, i: nat, j: nat)
    requires i <= j <= |a + b|
    ensures (a + b)[i..j] == if |a| <= i then b[i - |a|..j - |a|]
                             else if j <= |a| then a[i..j] + []
                             else a[i..|a|] + b[..j - |a|]
  {
  }

  /** What is left of a character after its first byte is malformed. */
  lemma CharacterTail(p: Point, i: nat, j: nat, t: seq<Byte>)
    requires Scalar(p) && 0 < i <= j <= |EncodeOne(p)| && Solid(t)
    ensures Solid(EncodeOne(p)[i..j] + t)
  {
    OnlyContinuations(EncodeOne(p)[i..j], t);
  }

  /** So searching what such a stretch decodes to is searching its bytes. */
  lemma SliceHolds(content: seq<Byte>, i: nat, j: nat, term: seq<Point>)
    requires WellFormed(content) && i <= j <= |content| && Occurs(Decode(content[i..j]), term)
    ensures Scalars(term) && Occurs(content[i..j], Encode(term))
  {
    var s := content[i..j];
    SliceIsSolid(Decode(content), i, j);
    DecodedLength(s);
    OccursEncoded(Decode(s), term);
    AddsNothingExactly(s);
  }

  lemma {:induction false} OnlyContinuations(c: seq<Byte>, t: seq<Byte>)
    requires Solid(t) && forall i :: 0 <= i < |c| ==> Continuation(c[i])
    ensures Solid(c + t)
  {
    if c == [] {
      assert c + t == t;
    } else {
      OnlyContinuations(c[1..], t);
      DropOfSum(c, t, 1);
      MalformedFirst(c + t, c[1..] + t);
    }
  }

  lemma {:induction false} PrefixIsRun(text: seq<Point>, j: nat)
    requires Scalars(text) && j <= |Encode(text)|
    ensures Run(Encode(text)[..j])
  {
    if text != [] {
      var one, more := EncodeOne(text[0]), Encode(text[1..]);
      var n := |one|;
      if n <= j {
        PrefixIsRun(text[1..], j - n);
        EncodedFirst(text[0], more[..j - n]);
        assert (one + more)[..j] == one + more[..j - n];
        assert (one + more[..j - n])[n..] == more[..j - n];
      } else {
        assert (one + more)[..j] == one[..j];
        CutCharacter(text[0], j);
      }
    }
  }

  /** The first bytes of a character decode to nothing. */
  lemma CutCharacter(p: Point, j: nat)
    requires Scalar(p) && j < |EncodeOne(p)|
    ensures Decode(EncodeOne(p)[..j]) == []
  {
    var s := EncodeOne(p)[..j];
    if s != [] {
      SixBits(p);
      assert First(s) == Piece(j, None);
      assert s[j..] == [];
    }
  }

  /** For instance, a byte that is never part of a character joins its neighbours. */
  lemma DroppedByteJoins()
    ensures Occurs(Decode([0x61, 0xFF, 0x62]), [0x61, 0x62])
    ensures !Occurs([0x61, 0xFF, 0x62], [0x61, 0x62])
    ensures !Solid([0x61, 0xFF, 0x62])
  {
    var s: seq<Byte>, t: seq<Byte>, u: seq<Byte> := [0x61, 0xFF, 0x62], [0xFF, 0x62], [0x62];
    assert s[1..] == t && t[1..] == u && u[1..] == [];
    DecodeFirst(u, Piece(1, Some(0x62)), []);
    assert Decode(u) == [0x62];
    DecodeFirst(t, Piece(1, None), u);
    assert Decode(t) == [0x62];
    DecodeFirst(s, Piece(1, Some(0x61)), t);
    assert Decode(s) == [0x61, 0x62];
    assert At([0x61, 0x62], [0x61, 0x62], 0);
    assert !At(s, [0x61, 0x62], 0) && !At(s, [0x61, 0x62], 1);
  }
}
