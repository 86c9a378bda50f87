/** Character-level text: whitespace, stripping, and splitting into lines, fields and words, with the inverses of the
    splits. */
module Text {
  /** The characters Python calls whitespace. */
  predicate IsSpace(c: char) {
    || '\U{0009}' <= c <= '\U{000D}' || '\U{001C}' <= c <= '\U{0020}' || c == '\U{0085}' || c == '\U{00A0}'
    || c == '\U{1680}' || '\U{2000}' <= c <= '\U{200A}' || c == '\U{2028}' || c == '\U{2029}' || c == '\U{202F}'
    || c == '\U{205F}' || c == '\U{3000}'
  }

  /** The characters at which Python's `splitlines` ends a line. */
  predicate IsBreak(c: char) {
    || '\U{000A}' <= c <= '\U{000D}' || '\U{001C}' <= c <= '\U{001E}' || c == '\U{0085}' || c == '\U{2028}'
    || c == '\U{2029}'
  }

  predicate SpaceFree(s: string) { forall i :: 0 <= i < |s| ==> !IsSpace(s[i]) }

  predicate BreakFree(s: string) { forall i :: 0 <= i < |s| ==> !IsBreak(s[i]) }

  function StripLeft(s: string): string {
    if s != [] && IsSpace(s[0]) then StripLeft(s[1..]) else s
  }

  function StripRight(s: string): string {
    if s != [] && IsSpace(s[|s| - 1]) then StripRight(s[..|s| - 1]) else s
  }

  function Strip(s: string): string { StripRight(StripLeft(s)) }

  lemma {:induction false} StripRightKeepsFirst(s: string)
    requires s != [] && !IsSpace(s[0])
    ensures StripRight(s) != [] && StripRight(s)[0] == s[0]
  {
    if IsSpace(s[|s| - 1]) { StripRightKeepsFirst(s[..|s| - 1]); }
  }

  lemma {:induction false} StripSpaceFree(s: string)
    requires SpaceFree(s)
    ensures Strip(s) == s
  {
  }

  // ASCII case; other letters are left alone.
  function Upper(s: string): string {
    if s == [] then [] else [if 'a' <= s[0] <= 'z' then s[0] - 'a' + 'A' else s[0]] + Upper(s[1..])
  }

  function Lower(s: string): string {
    if s == [] then [] else [if 'A' <= s[0] <= 'Z' then s[0] - 'A' + 'a' else s[0]] + Lower(s[1..])
  }

  // ----- line ends as Python reads them --------------------------------------------------------------------------

  /** A file read as text: a carriage return, with or without a newline after it, becomes a newline. */
  function Newlines(s: string): (r: string)
    ensures '\r' !in r
    decreases |s|
  {
    if s == [] then []
    else if s[0] == '\r' then "\n" + Newlines(s[if |s| > 1 && s[1] == '\n' then 2 else 1..])
    else [s[0]] + Newlines(s[1..])
  }

  /** Text survives being read exactly when it holds no carriage return. */
  lemma {:induction false} NewlinesExactly(s: string)
    ensures Newlines(s) == s <==> '\r' !in s
  {
    if '\r' !in s { NewlinesKeep(s); }
  }

  lemma {:induction false} NewlinesKeep(s: string)
    requires '\r' !in s
    ensures Newlines(s) == s
  {
    if s != [] {
      NewlinesKeep(s[1..]);
      assert [s[0]] + s[1..] == s;
    }
  }

  lemma CarriageReturnIsLost()
    ensures Newlines("a\r\nb") == "a\nb"
  {
    var s := "a\r\nb";
    assert s[1..][0] == '\r' && s[1..][1] == '\n' && s[1..][2..] == "b";
    assert Newlines("b") == "b" by { NewlinesKeep("b"); }
    assert Newlines(s[1..]) == "\n" + Newlines("b");
  }

  // ----- joining -------------------------------------------------------------------------------------------------

  function Join(xs: seq<string>, separator: char): string {
    if xs == [] then "" else if |xs| == 1 then xs[0] else xs[0] + [separator] + Join(xs[1..], separator)
  }

  /** Every line ended by a newline. */
  function Unlines(xs: seq<string>): string {
    if xs == [] then "" else xs[0] + "\n" + Unlines(xs[1..])
  }

  // ----- splitting at one character ------------------------------------------------------------------------------

  function Split(s: string, separator: char): (r: seq<string>)
    ensures r != []
  {
    if s == [] then [""]
    else
      var rest := Split(s[1..], separator);
      if s[0] == separator then [""] + rest else [[s[0]] + rest[0]] + rest[1..]
  }

  lemma {:induction false} SplitAt(a: string, rest: string, separator: char)
    requires separator !in a
    ensures Split(a + [separator] + rest, separator) == [a] + Split(rest, separator)
  {
    if a == [] {
      assert ([separator] + rest)[1..] == rest;
      assert a + [separator] + rest == [separator] + rest;
    } else {
      SplitAt(a[1..], rest, separator);
      assert (a + [separator] + rest)[1..] == a[1..] + [separator] + rest;
      assert [a[0]] + a[1..] == a;
    }
  }

  lemma {:induction false} SplitOne(a: string, separator: char)
    requires separator !in a
    ensures Split(a, separator) == [a]
  {
    if a != [] {
      SplitOne(a[1..], separator);
      assert [a[0]] + a[1..] == a;
    }
  }

  /** Splitting undoes joining when no piece contains the separator. */
  lemma {:induction false} SplitJoin(xs: seq<string>, separator: char)
    requires xs != [] && forall x :: x in xs ==> separator !in x
    ensures Split(Join(xs, separator), separator) == xs
  {
    if |xs| == 1 {
      SplitOne(xs[0], separator);
    } else {
      SplitJoin(xs[1..], separator);
      SplitAt(xs[0], Join(xs[1..], separator), separator);
    }
  }

  lemma JoinSnoc(xs: seq<string>, x: string, separator: char)
    requires xs != []
    ensures Join(xs + [x], separator) == Join(xs, separator) + [separator] + x
  {
    if |xs| > 1 {
      JoinSnoc(xs[1..], x, separator);
      assert (xs + [x])[1..] == xs[1..] + [x];
    } else {
      assert (xs + [x])[1..] == [x];
    }
  }

  /** Joining undoes splitting, always. */
  lemma {:induction false} JoinSplit(s: string, separator: char)
    ensures Join(Split(s, separator), separator) == s
  {
    if s != [] {
      var rest := Split(s[1..], separator);
      JoinSplit(s[1..], separator);
      assert [s[0]] + s[1..] == s;
      var all := Split(s, separator);
      if s[0] == separator {
        assert all == [""] + rest && all[1..] == rest;
      } else {
        assert all[1..] == rest[1..];
      }
    }
  }

  // ----- lines ---------------------------------------------------------------------------------------------------

  function BreakLength(s: string): (n: nat)
    requires s != [] && IsBreak(s[0])
    ensures 1 <= n <= |s|
  { if |s| > 1 && s[0] == '\r' && s[1] == '\n' then 2 else 1 }

  function Lines(s: string): seq<string>
    decreases |s|
  {
    if s == [] then []
    else if IsBreak(s[0]) then [""] + Lines(s[BreakLength(s)..])
    else
      var rest := Lines(s[1..]);
      if rest == [] then [[s[0]]] else [[s[0]] + rest[0]] + rest[1..]
  }

  lemma {:induction false} LineAt(a: string, rest: string)
    requires BreakFree(a)
    ensures Lines(a + "\n" + rest) == [a] + Lines(rest)
  {
    if a == [] {
      assert a + "\n" + rest == "\n" + rest;
      assert ("\n" + rest)[1..] == rest;
    } else {
      LineAt(a[1..], rest);
      assert (a + "\n" + rest)[1..] == a[1..] + "\n" + rest;
      assert [a[0]] + a[1..] == a;
    }
  }

  lemma {:induction false} LinesUnlines(xs: seq<string>)
    requires forall x :: x in xs ==> BreakFree(x)
    ensures Lines(Unlines(xs)) == xs
  {
    if xs != [] {
      LinesUnlines(xs[1..]);
      LineAt(xs[0], Unlines(xs[1..]));
    }
  }

  // ----- words ---------------------------------------------------------------------------------------------------

  /** Maximal runs of characters that are not whitespace. */
  function Words(s: string): (r: seq<string>)
    ensures s != [] && !IsSpace(s[0]) ==> r != []
  {
    if s == [] then []
    else if IsSpace(s[0]) then Words(s[1..])
    else
      var rest := Words(s[1..]);
      if |s| == 1 || IsSpace(s[1]) then [[s[0]]] + rest else [[s[0]] + rest[0]] + rest[1..]
  }

  lemma {:induction false} WordAt(a: string, rest: string)
    requires a != [] && SpaceFree(a) && (rest == [] || IsSpace(rest[0]))
    ensures Words(a + rest) == [a] + Words(rest)
  {
    assert (a + rest)[1..] == a[1..] + rest;
    if |a| > 1 {
      WordAt(a[1..], rest);
      assert [a[0]] + a[1..] == a;
    } else {
      assert a == [a[0]] && (a + rest)[1..] == rest;
      assert rest != [] ==> (a + rest)[1] == rest[0];
    }
  }

  /** Words come back from a line in which they were joined by single spaces. */
  lemma {:induction false} WordsJoin(xs: seq<string>)
    requires forall x :: x in xs ==> x != [] && SpaceFree(x)
    ensures Words(Join(xs, ' ')) == xs
  {
    assert xs != [] ==> xs[0] in xs;
    if |xs| == 1 {
      WordAt(xs[0], []);
      assert xs[0] + [] == xs[0];
    } else if |xs| > 1 {
      assert forall x :: x in xs[1..] ==> x in xs;
      WordsJoin(xs[1..]);
      var rest := Join(xs[1..], ' ');
      WordAt(xs[0], [' '] + rest);
      assert xs[0] + [' '] + rest == xs[0] + ([' '] + rest);
      assert ([' '] + rest)[1..] == rest;
    }
  }
}
