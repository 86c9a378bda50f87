/** Where applications' data is overlaid: target validation and escaping, and the checks that no two targets and no two
    writable layers get in each other's way. */
module Overlays {
  import opened Basics
  import opened Text
  import Utf8

  // ----- posixpath.normpath --------------------------------------------------------------------------------------

  /** The slashes a path keeps at its front: none, one, or exactly two. */
  function Leading(path: string): nat {
    if !("/" <= path) then 0 else if "//" <= path && !("///" <= path) then 2 else 1
  }

  function Slashes(n: nat): string { if n == 0 then "" else if n == 1 then "/" else "//" }

  /** One component: dropped, taken back with the one before it, or kept. */
  function Step(kept: seq<string>, leading: nat, c: string): seq<string> {
    if c == "" || c == "." then kept
    else if c != ".." || (leading == 0 && kept == []) || (kept != [] && kept[|kept| - 1] == "..") then kept + [c]
    else if kept != [] then kept[..|kept| - 1]
    else kept
  }

  function Kept(components: seq<string>, leading: nat): seq<string> {
    if components == [] then []
    else Step(Kept(components[..|components| - 1], leading), leading, components[|components| - 1])
  }

  function Printed(kept: seq<string>, leading: nat): string {
    var path := Slashes(leading) + Join(kept, '/');
    if path == "" then "." else path
  }

  function NormPath(path: string): string {
    if path == "" then "." else Printed(Kept(Split(path, '/'), Leading(path)), Leading(path))
  }

  method NormalizePath(path: string) returns (r: string)
    ensures r == NormPath(path)
  {
    if path == "" { return "."; }
    var components, leading, kept := Split(path, '/'), Leading(path), [];
    for k := 0 to |components|
      invariant kept == Kept(components[..k], leading)
    {
      assert components[..k + 1][..k] == components[..k];
      kept := Step(kept, leading, components[k]);
    }
    assert components[..|components|] == components;
    r := Printed(kept, leading);
  }

  /** A component that normalizing leaves behind: not empty, not a dot, no slash; dot-dot only up front in a relative
      path. */
  predicate Normal(kept: seq<string>, leading: nat) {
    && leading <= 2
    && (forall i :: 0 <= i < |kept| ==> kept[i] != "" && kept[i] != "." && '/' !in kept[i])
    && (forall i :: 0 <= i < |kept| && kept[i] == ".." ==> leading == 0 && forall j :: 0 <= j < i ==> kept[j] == "..")
  }

  lemma {:induction false} KeptIsNormal(components: seq<string>, leading: nat)
    requires leading <= 2 && forall c :: c in components ==> '/' !in c
    ensures Normal(Kept(components, leading), leading)
  {
    if components != [] {
      assert components[|components| - 1] in components;
      assert forall c :: c in components[..|components| - 1] ==> c in components;
      KeptIsNormal(components[..|components| - 1], leading);
    }
  }

  lemma {:induction false} NormalIsKept(components: seq<string>, leading: nat)
    requires Normal(components, leading)
    ensures Kept(components, leading) == components
  {
    if components != [] {
      var n := |components| - 1;
      assert components[..n] + [components[n]] == components;
      NormalPart(components[..n], leading, components[n]);
      NormalIsKept(components[..n], leading);
    }
  }

  lemma NormalPart(kept: seq<string>, leading: nat, c: string)
    requires Normal(kept + [c], leading)
    ensures Normal(kept, leading) && Step(kept, leading, c) == kept + [c]
  {
    var all := kept + [c];
    assert all[|kept|] == c;
    assert forall i :: 0 <= i < |kept| ==> all[i] == kept[i];
  }

  lemma {:induction false} PiecesHaveNoSeparator(s: string, separator: char)
    ensures forall x :: x in Split(s, separator) ==> separator !in x
  {
    if s != [] {
      var rest := Split(s[1..], separator);
      PiecesHaveNoSeparator(s[1..], separator);
      assert rest[0] in rest;
      forall x | x in Split(s, separator) ensures separator !in x {
        if x !in rest { assert x == "" || x == [s[0]] + rest[0]; }
      }
    }
  }

  lemma {:induction false} EmptyPieceFirst(rest: seq<string>, leading: nat)
    ensures Kept([""] + rest, leading) == Kept(rest, leading)
  {
    var all := [""] + rest;
    if rest == [] {
      assert all[..|all| - 1] == [];
    } else {
      EmptyPieceFirst(rest[..|rest| - 1], leading);
      assert all[..|all| - 1] == [""] + rest[..|rest| - 1];
    }
  }

  lemma LeadingOfPrinted(kept: seq<string>, leading: nat)
    requires Normal(kept, leading)
    ensures Leading(Printed(kept, leading)) == leading
  {
    var path := Join(kept, '/');
    if kept != [] { assert path[0] == kept[0][0] && path[0] != '/'; }
    var printed := Printed(kept, leading);
    if leading == 0 {
      assert printed[0] != '/';
    } else if leading == 1 {
      assert printed == "/" + path && printed[1..] == path;
    } else {
      assert printed == "//" + path && printed[2..] == path;
    }
  }

  lemma KeptOfJoined(kept: seq<string>, leading: nat)
    requires Normal(kept, leading)
    ensures Kept(Split(Join(kept, '/'), '/'), leading) == kept
  {
    if kept == [] {
      KeptNothing(leading);
    } else {
      SplitJoin(kept, '/');
      NormalIsKept(kept, leading);
    }
  }

  lemma KeptOfPrinted(kept: seq<string>, leading: nat)
    requires Normal(kept, leading)
    ensures Kept(Split(Printed(kept, leading), '/'), leading) == kept
  {
    var path, printed := Join(kept, '/'), Printed(kept, leading);
    KeptOfJoined(kept, leading);
    SplitSlash(path, leading);
    SplitSlash("/" + path, leading);
    if leading == 0 {
      KeptNothing(leading);
      assert "" + path == path;
      assert kept == [] || path[0] == kept[0][0];
    } else if leading == 1 {
      assert printed == "/" + path;
    } else {
      assert printed == "/" + ("/" + path);
    }
  }

  lemma KeptNothing(leading: nat)
    ensures Kept([""], leading) == [] && Kept(Split(".", '/'), leading) == []
  {
    assert [""][..0] == [] && ["."][..0] == [];
    SplitOne(".", '/');
  }

  lemma SplitSlash(path: string, leading: nat)
    ensures Kept(Split("/" + path, '/'), leading) == Kept(Split(path, '/'), leading)
  {
    assert ("/" + path)[1..] == path;
    EmptyPieceFirst(Split(path, '/'), leading);
  }

  /** Normalizing twice is normalizing once. */
  lemma NormPathIdempotent(path: string)
    ensures NormPath(NormPath(path)) == NormPath(path)
  {
    var kept, leading := Kept(Split(path, '/'), Leading(path)), Leading(path);
    if path == "" {
      KeptNothing(0);
    } else {
      PiecesHaveNoSeparator(path, '/');
      KeptIsNormal(Split(path, '/'), leading);
      LeadingOfPrinted(kept, leading);
      KeptOfPrinted(kept, leading);
    }
  }

  // ----- normalizing keeps the place -----------------------------------------------------------------------------

  /** Where one component leads from a directory, given as the names on the way to it from the root. */
  function Visit(here: seq<string>, c: string): seq<string> {
    if c == "" || c == "." then here
    else if c == ".." then (if here == [] then [] else here[..|here| - 1])
    else here + [c]
  }

  /** Where a path leads, component by component. */
  function Walk(here: seq<string>, components: seq<string>): seq<string>
    decreases |components|
  { if components == [] then here else Walk(Visit(here, components[0]), components[1..]) }

  lemma {:induction false} WalkSnoc(here: seq<string>, components: seq<string>, c: string)
    ensures Walk(here, components + [c]) == Visit(Walk(here, components), c)
    decreases |components|
  {
    if components == [] {
      assert ([] + [c])[1..] == [];
    } else {
      assert (components + [c])[1..] == components[1..] + [c];
      WalkSnoc(Visit(here, components[0]), components[1..], c);
    }
  }

  lemma {:induction false} KeptHasNames(components: seq<string>, leading: nat)
    ensures forall i :: 0 <= i < |Kept(components, leading)| ==>
              Kept(components, leading)[i] != "" && Kept(components, leading)[i] != "."
  {
    if components != [] { KeptHasNames(components[..|components| - 1], leading); }
  }

  /** The components that are kept lead to the same place as all of them. */
  lemma {:induction false} KeptLeadsThere(here: seq<string>, components: seq<string>, leading: nat)
    requires leading > 0 ==> here == []
    ensures Walk(here, Kept(components, leading)) == Walk(here, components)
  {
    if components != [] {
      var init, c := components[..|components| - 1], components[|components| - 1];
      assert components == init + [c];
      WalkSnoc(here, init, c);
      KeptLeadsThere(here, init, leading);
      KeptHasNames(init, leading);
      StepLeadsThere(here, Kept(init, leading), leading, c);
    }
  }

  lemma StepLeadsThere(here: seq<string>, kept: seq<string>, leading: nat, c: string)
    requires (leading > 0 ==> here == []) && forall i :: 0 <= i < |kept| ==> kept[i] != "" && kept[i] != "."
    ensures Walk(here, Step(kept, leading, c)) == Visit(Walk(here, kept), c)
  {
    WalkSnoc(here, kept, c);
    if c == ".." && kept != [] && kept[|kept| - 1] != ".." {
      var init, last := kept[..|kept| - 1], kept[|kept| - 1];
      assert kept == init + [last];
      WalkSnoc(here, init, last);
    }
  }

  /** A normalized path leads where the path leads: from the root if it is absolute, else from wherever one is. */
  lemma NormPathLeadsThere(path: string, here: seq<string>)
    ensures var start := if "/" <= path then [] else here;
            Walk(start, Split(NormPath(path), '/')) == Walk(start, Split(path, '/'))
  {
    var start := if "/" <= path then [] else here;
    var leading := Leading(path);
    var kept := Kept(Split(path, '/'), leading);
    if path == "" {
      SplitOne(".", '/');
      assert Split("", '/') == [""] && [""][1..] == [] && ["."][1..] == [];
    } else {
      PiecesHaveNoSeparator(path, '/');
      KeptIsNormal(Split(path, '/'), leading);
      KeptOfPrinted(kept, leading);
      KeptLeadsThere(start, Split(path, '/'), leading);
      KeptLeadsThere(start, Split(NormPath(path), '/'), leading);
    }
  }

  // ----- validation and escaping ---------------------------------------------------------------------------------

  function Points(s: string): (p: seq<Utf8.Point>)
    ensures |p| == |s| && forall i :: 0 <= i < |p| ==> Utf8.Scalar(p[i]) && p[i] == s[i] as int
  { if s == [] then [] else [s[0] as int] + Points(s[1..]) }

  function HexDigit(n: nat): char
    requires n < 16
  { if n < 10 then '0' + n as char else 'a' + (n - 10) as char }

  function Hex(b: seq<Utf8.Bytes.Byte>): (s: string)
    ensures |s| == 2 * |b|
  { if b == [] then "" else [HexDigit(b[0] / 16), HexDigit(b[0] % 16)] + Hex(b[1..]) }

  /** One directory name for a target. */
  function Escape(target: string): string { "target-" + Hex(Utf8.Encode(Points(target))) }

  predicate Control(c: char) { c as int < 32 || c as int == 127 }

  /** The normalized target, unless it is unsafe or its escaped name too long. */
  function Validate(target: string): Option<string> {
    if !("/" <= target || "~/" <= target) || target == "/" || target == "~/" || "//" <= target
       || ".." in Split(target, '/')
       || (exists i :: 0 <= i < |target| && (target[i] == ',' || target[i] == ':' || Control(target[i])))
    then None
    else if NormPath(target) == "/" || NormPath(target) == "~" || |Escape(NormPath(target))| > 255 then None
    else Some(NormPath(target))
  }

  lemma {:induction false} HexInjective(a: seq<Utf8.Bytes.Byte>, b: seq<Utf8.Bytes.Byte>)
    requires Hex(a) == Hex(b)
    ensures a == b
  {
    if a != [] && b != [] {
      assert Hex(a)[0] == HexDigit(a[0] / 16) && Hex(a)[1] == HexDigit(a[0] % 16);
      assert Hex(b)[0] == HexDigit(b[0] / 16) && Hex(b)[1] == HexDigit(b[0] % 16);
      assert Hex(a)[2..] == Hex(a[1..]) && Hex(b)[2..] == Hex(b[1..]);
      HexInjective(a[1..], b[1..]);
      assert [a[0]] + a[1..] == a && [b[0]] + b[1..] == b;
    }
  }

  /** Two targets share a directory name only if they are the same. */
  lemma EscapeInjective(a: string, b: string)
    requires Escape(a) == Escape(b)
    ensures a == b
  {
    var x, y := Utf8.Encode(Points(a)), Utf8.Encode(Points(b));
    assert Escape(a)[7..] == Hex(x) && Escape(b)[7..] == Hex(y);
    HexInjective(x, y);
    Utf8.DecodeEncode(Points(a));
    Utf8.DecodeEncode(Points(b));
    assert |a| == |b|;
    forall i | 0 <= i < |a| ensures a[i] == b[i] { assert Points(a)[i] == Points(b)[i]; }
  }

  /** A validated target is in normal form, is no root, and its directory name fits. */
  lemma ValidatedTarget(target: string)
    requires Validate(target).Some?
    ensures var t := Validate(target).value;
            NormPath(t) == t && t != "/" && t != "//" && t != "~" && |Escape(t)| <= 255
  {
    NormPathIdempotent(target);
    var kept, leading := Kept(Split(target, '/'), Leading(target)), Leading(target);
    assert leading < 2;
    PiecesHaveNoSeparator(target, '/');
    KeptIsNormal(Split(target, '/'), leading);
    LeadingOfPrinted(kept, leading);
  }

  lemma {:induction false} HexLength(b: seq<Utf8.Bytes.Byte>)
    ensures |Hex(b)| == 2 * |b|
  {
    if b != [] { HexLength(b[1..]); }
  }

  predicate Harmless(c: char) { c != ',' && c != ':' && c as int >= 32 && c as int != 127 }

  /** A target is accepted exactly when it is an absolute path or one in the home directory, no root, without a step up,
      a second leading slash, commas, colons and control characters, and its normal form is no root and takes at most
      124 bytes. */
  lemma ValidateExactly(target: string)
    ensures Validate(target).Some? <==>
              && ("/" <= target || "~/" <= target) && target != "/" && target != "~/" && !("//" <= target)
              && ".." !in Split(target, '/') && (forall c :: c in target ==> Harmless(c))
              && NormPath(target) != "/" && NormPath(target) != "~"
              && |Utf8.Encode(Points(NormPath(target)))| <= 124
  {
    HexLength(Utf8.Encode(Points(NormPath(target))));
    assert |Escape(NormPath(target))| == 7 + 2 * |Utf8.Encode(Points(NormPath(target)))|;
    if forall c :: c in target ==> Harmless(c) {
      forall i | 0 <= i < |target| ensures target[i] != ',' && target[i] != ':' && !Control(target[i]) {
        assert target[i] in target;
      }
    }
  }

  // ----- nesting -------------------------------------------------------------------------------------------------

  function RStripSlash(s: string): string { if s != "" && s[|s| - 1] == '/' then RStripSlash(s[..|s| - 1]) else s }

  /** What the conflict check takes for "inside". */
  predicate Below(target: string, child: string) { RStripSlash(target) + "/" <= child }

  predicate Components(xs: seq<string>) { forall i :: 0 <= i < |xs| ==> xs[i] != "" && '/' !in xs[i] }

  lemma {:induction false} JoinEnds(xs: seq<string>)
    requires Components(xs) && xs != []
    ensures Join(xs, '/') != "" && Join(xs, '/')[|Join(xs, '/')| - 1] != '/'
  {
    if |xs| == 1 {
      assert xs[0][|xs[0]| - 1] in xs[0];
    } else {
      JoinEnds(xs[1..]);
    }
  }

  lemma HeadDecides(a: string, b: string, x: string, y: string)
    requires '/' !in a && '/' !in b && a + "/" + x <= b + y && (y == "" || y[0] == '/')
    ensures a == b && y != "" && x <= y[1..]
  {
    var s, t := a + "/" + x, b + y;
    assert s[|a|] == '/' && t[|a|] == '/';
    assert forall i :: 0 <= i < |a| ==> s[i] == a[i] && a[i] in a;
    assert forall i :: 0 <= i < |b| ==> t[i] == b[i] && b[i] in b;
    assert y != "" ==> t[|b|] == '/';
    assert a == s[..|a|] && b == t[..|a|];
    assert s[|a| + 1..] == x && y[1..] == t[|a| + 1..];
  }

  /** One path is a string prefix of another up to a slash exactly when its components are the other's first ones. */
  lemma {:induction false} NestedExactly(a: seq<string>, b: seq<string>)
    requires Components(a) && Components(b) && a != [] && b != []
    ensures Join(a, '/') + "/" <= Join(b, '/') <==> a < b
  {
    var s, t := Join(a, '/') + "/", Join(b, '/');
    if |a| == 1 {
      assert s == a[0] + "/" + "";
    } else {
      assert s == a[0] + "/" + (Join(a[1..], '/') + "/");
    }
    var x := if |a| == 1 then "" else Join(a[1..], '/') + "/";
    var y := if |b| == 1 then "" else "/" + Join(b[1..], '/');
    assert t == b[0] + y;
    if s <= t { HeadDecides(a[0], b[0], x, y); }
    if |b| > 1 { assert y[1..] == Join(b[1..], '/'); }
    if |a| > 1 && |b| > 1 && a[0] == b[0] {
      NestedExactly(a[1..], b[1..]);
      assert s == (a[0] + "/") + x && t == (a[0] + "/") + y[1..];
      SamePrefix(a[0] + "/", x, y[1..]);
      assert a == [a[0]] + a[1..] && b == [b[0]] + b[1..];
    }
    if |a| == 1 && |b| > 1 && a[0] == b[0] { assert t == (a[0] + "/") + y[1..] && s == a[0] + "/"; }
  }

  lemma SamePrefix(p: string, x: string, y: string)
    ensures p + x <= p + y <==> x <= y
  {
    if p + x <= p + y { assert x == (p + x)[|p|..] && y[..|x|] == (p + y)[|p|..][..|x|]; }
    if x <= y { assert p + y == p + x + y[|x|..]; }
  }

  /** For absolute targets in normal form, "inside" is nesting of directories. */
  lemma BelowExactly(a: seq<string>, b: seq<string>)
    requires Components(a) && Components(b) && a != [] && b != []
    ensures Below("/" + Join(a, '/'), "/" + Join(b, '/')) <==> a < b
  {
    JoinEnds(a);
    var s := "/" + Join(a, '/');
    assert s[|s| - 1] != '/';
    assert s + "/" == "/" + (Join(a, '/') + "/");
    SamePrefix("/", Join(a, '/') + "/", Join(b, '/'));
    NestedExactly(a, b);
  }

  lemma {:induction false} NormalEndsWithoutSlash(kept: seq<string>, leading: nat)
    requires Normal(kept, leading) && kept != []
    ensures Printed(kept, leading)[|Printed(kept, leading)| - 1] != '/'
  {
    JoinEnds(kept);
  }

  lemma EndsWithoutSlash(target: string)
    requires Validate(target).Some?
    ensures RStripSlash(Validate(target).value) == Validate(target).value
  {
    var kept, leading := Kept(Split(target, '/'), Leading(target)), Leading(target);
    PiecesHaveNoSeparator(target, '/');
    KeptIsNormal(Split(target, '/'), leading);
    if kept != [] { NormalEndsWithoutSlash(kept, leading); }
  }
}
