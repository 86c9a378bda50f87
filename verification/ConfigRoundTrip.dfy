/** What decrypting after encrypting restores, whichever of the tool's calls fail. */
module ConfigRoundTrip {
  import opened Basics
  import opened ConfigCrypto
  import opened ConfigTree
  import opened Text

  // ----- the configurations considered ---------------------------------------------------------------------------

  /** No key, at any depth, contains a dot. */
  predicate DotFree(v: Json) {
    v.Obj? ==> forall i :: 0 <= i < |v.fields| ==> '.' !in v.fields[i].key && DotFree(v.fields[i].value)
  }

  /** Nothing below is an encrypted-field marker already. */
  predicate Unmarked(v: Json) {
    v.Obj? ==> forall i :: 0 <= i < |v.fields| ==> !IsMarker(v.fields[i].value) && Unmarked(v.fields[i].value)
  }

  predicate Sound(t: Json) {
    && t.Obj? && Proper(t) && DotFree(t) && Unmarked(t)
    && forall i :: 0 <= i < |t.fields| ==> t.fields[i].key != ""
  }

  /** The named fields exist, and none is named twice or lies inside another. */
  predicate Named(t: Json, paths: seq<string>) {
    && (forall i :: 0 <= i < |paths| ==> Get(t, Split(paths[i], '.')).Some?)
    && (forall i, j :: 0 <= i < |paths| && 0 <= j < |paths| && i != j ==>
          !(Split(paths[i], '.') <= Split(paths[j], '.')))
  }

  function Target(t: Json, paths: seq<string>, i: nat): Json
    requires i < |paths| && Get(t, Split(paths[i], '.')).Some?
  { Get(t, Split(paths[i], '.')).value }

  // ----- encryption is a patch -----------------------------------------------------------------------------------

  function PatchOf(c: Cipher, show: Json -> string, t: Json, paths: seq<string>, outcomes: seq<Outcome>): Patch
    requires |outcomes| == |paths| && forall i :: 0 <= i < |paths| ==> Get(t, Split(paths[i], '.')).Some?
  {
    if paths == [] then map[]
    else
      var n := |paths| - 1;
      var before := PatchOf(c, show, t, paths[..n], outcomes[..n]);
      if outcomes[n].Failed? then before
      else before[Split(paths[n], '.') := SealedValue(c, Target(t, paths, n), show, outcomes[n].salt)]
  }

  lemma {:induction false} PatchKeys(c: Cipher, show: Json -> string, t: Json, paths: seq<string>,
                                     outcomes: seq<Outcome>, q: Path)
    requires |outcomes| == |paths| && forall i :: 0 <= i < |paths| ==> Get(t, Split(paths[i], '.')).Some?
    requires q in PatchOf(c, show, t, paths, outcomes)
    ensures exists i :: 0 <= i < |paths| && q == Split(paths[i], '.') && outcomes[i].Sealed?
  {
    var n := |paths| - 1;
    if outcomes[n].Failed? || q != Split(paths[n], '.') {
      PatchKeys(c, show, t, paths[..n], outcomes[..n], q);
      var i :| 0 <= i < n && q == Split(paths[..n][i], '.') && outcomes[..n][i].Sealed?;
      assert q == Split(paths[i], '.') && outcomes[i].Sealed?;
    }
  }

  lemma {:induction false} PatchValue(c: Cipher, show: Json -> string, t: Json, paths: seq<string>,
                                      outcomes: seq<Outcome>, i: nat)
    requires |outcomes| == |paths| && Named(t, paths) && i < |paths| && outcomes[i].Sealed?
    ensures var r := PatchOf(c, show, t, paths, outcomes);
            && Split(paths[i], '.') in r
            && r[Split(paths[i], '.')] == SealedValue(c, Target(t, paths, i), show, outcomes[i].salt)
  {
    var n := |paths| - 1;
    if i < n {
      NamedBefore(t, paths, n);
      PatchValue(c, show, t, paths[..n], outcomes[..n], i);
      PathsDiffer(t, paths, i, n);
    }
  }

  lemma NamedBefore(t: Json, paths: seq<string>, n: nat)
    requires Named(t, paths) && n <= |paths|
    ensures Named(t, paths[..n])
  {
  }

  lemma PathsDiffer(t: Json, paths: seq<string>, i: nat, j: nat)
    requires Named(t, paths) && i < j < |paths|
    ensures Split(paths[i], '.') != Split(paths[j], '.')
  {
    assert !(Split(paths[i], '.') <= Split(paths[j], '.'));
  }

  /** No path of the patch lies at or above another. */
  predicate Antichain(r: Patch) { forall p, q :: p in r && q in r && p <= q ==> p == q }

  lemma PatchIsAntichain(c: Cipher, show: Json -> string, t: Json, paths: seq<string>, outcomes: seq<Outcome>)
    requires |outcomes| == |paths| && Named(t, paths)
    ensures Antichain(PatchOf(c, show, t, paths, outcomes))
  {
    var r := PatchOf(c, show, t, paths, outcomes);
    forall p, q | p in r && q in r && p <= q ensures p == q {
      PatchKeys(c, show, t, paths, outcomes, p);
      PatchKeys(c, show, t, paths, outcomes, q);
    }
  }

  lemma {:induction false} EncryptIsPatch(c: Cipher, show: Json -> string, t: Json, paths: seq<string>,
                                          outcomes: seq<Outcome>)
    requires Proper(t) && |outcomes| == |paths| && Named(t, paths)
    ensures Encrypt(c, show, t, paths, outcomes) == Some(Within(t, [], PatchOf(c, show, t, paths, outcomes)))
  {
    if paths == [] {
      AtUnchanged(t, [], map[]);
      return;
    }
    var n := |paths| - 1;
    EncryptIsPatch(c, show, t, paths[..n], outcomes[..n]);
    EarlierPathsApart(c, show, t, paths, outcomes);
    StepIsPatch(c, show, t, PatchOf(c, show, t, paths[..n], outcomes[..n]), paths[n], outcomes[n]);
  }

  lemma EarlierPathsApart(c: Cipher, show: Json -> string, t: Json, paths: seq<string>, outcomes: seq<Outcome>)
    requires |outcomes| == |paths| && paths != [] && Named(t, paths)
    ensures var n := |paths| - 1;
            forall q :: q in PatchOf(c, show, t, paths[..n], outcomes[..n]) ==>
              !(q <= Split(paths[n], '.')) && !(Split(paths[n], '.') <= q)
  {
    var n := |paths| - 1;
    forall q | q in PatchOf(c, show, t, paths[..n], outcomes[..n])
      ensures !(q <= Split(paths[n], '.')) && !(Split(paths[n], '.') <= q)
    {
      PatchKeys(c, show, t, paths[..n], outcomes[..n], q);
      var i :| 0 <= i < n && q == Split(paths[..n][i], '.');
      assert q == Split(paths[i], '.');
    }
  }

  lemma StepIsPatch(c: Cipher, show: Json -> string, t: Json, r: Patch, dotted: string, outcome: Outcome)
    requires Proper(t) && Get(t, Split(dotted, '.')).Some?
    requires forall q :: q in r ==> !(q <= Split(dotted, '.')) && !(Split(dotted, '.') <= q)
    ensures var p := Split(dotted, '.');
            EncryptStep(c, show, Within(t, [], r), dotted, outcome)
            == Some(Within(t, [], if outcome.Failed? then r
                                  else r[p := SealedValue(c, Get(t, p).value, show, outcome.salt)]))
  {
    var p := Split(dotted, '.');
    assert [] + p == p;
    GetAt(t, [], r, p);
    GetProper(t, p);
    AtUnchanged(Get(t, p).value, p, r);
    if outcome.Sealed? { PutAt(t, [], r, p, SealedValue(c, Get(t, p).value, show, outcome.salt)); }
  }

  lemma {:induction false} GetProper(v: Json, path: Path)
    requires Proper(v) && Get(v, path).Some?
    ensures Proper(Get(v, path).value)
    decreases |path|
  {
    if path != [] {
      ProperChild(v, path[0]);
      GetProper(Lookup(v.fields, path[0]).value, path[1..]);
    }
  }

  // ----- what is found encrypted ---------------------------------------------------------------------------------

  /** The patched paths, in the order in which the document shows them. */
  function Marked(fields: seq<Field>, path: Path, r: Patch): seq<Path>
    decreases fields
  {
    if fields == [] then []
    else
      var down := path + [fields[0].key];
      (if down in r then [down] else if fields[0].value.Obj? then Marked(fields[0].value.fields, down, r) else [])
      + Marked(fields[1..], path, r)
  }

  function Dotted(paths: seq<Path>): (r: seq<string>)
    ensures |r| == |paths|
    ensures forall i :: 0 <= i < |r| ==> r[i] == Join(paths[i], '.')
  { if paths == [] then [] else [Join(paths[0], '.')] + Dotted(paths[1..]) }

  lemma {:induction false} DottedTogether(a: seq<Path>, b: seq<Path>)
    ensures Dotted(a + b) == Dotted(a) + Dotted(b)
  {
  }

  /** Every replacement is a marker. */
  predicate Sealing(r: Patch) { forall q :: q in r ==> IsMarker(r[q]) }

  lemma StillUnmarked(v: Json, path: Path, r: Patch)
    requires Sealing(r) && !IsMarker(v)
    ensures !IsMarker(Within(v, path, r))
  {
    if v.Obj? { LookupAt(v.fields, path, r, ENCRYPTED); }
  }

  predicate CleanFields(fields: seq<Field>) {
    forall i :: 0 <= i < |fields| ==> !IsMarker(fields[i].value) && Unmarked(fields[i].value)
  }

  /** Exactly the patched paths are found, in document order. */
  lemma {:induction false} FindIsMarked(fields: seq<Field>, path: Path, r: Patch)
    requires Sealing(r) && CleanFields(fields)
    requires if path == [] then forall i :: 0 <= i < |fields| ==> fields[i].key != "" else path[0] != ""
    ensures Find(FieldsAt(fields, path, r), Join(path, '.')) == Dotted(Marked(fields, path, r))
    decreases fields
  {
    if fields == [] { return; }
    var key, v, down := fields[0].key, fields[0].value, path + [fields[0].key];
    if path != [] {
      JoinSnoc(path, key, '.');
      JoinNotEmpty(path);
    }
    assert CleanFields(fields[1..]) by { forall i | 0 <= i < |fields[1..]| ensures fields[1..][i] == fields[i + 1] { } }
    FindIsMarked(fields[1..], path, r);
    var w := FieldsAt(fields, path, r);
    assert w[1..] == FieldsAt(fields[1..], path, r);
    if down !in r {
      StillUnmarked(v, down, r);
      if v.Obj? { FindIsMarked(v.fields, down, r); }
    }
    DottedTogether(if down in r then [down] else if v.Obj? then Marked(v.fields, down, r) else [],
                   Marked(fields[1..], path, r));
  }

  lemma JoinNotEmpty(xs: seq<string>)
    requires xs != [] && xs[0] != ""
    ensures Join(xs, '.') != ""
  {
  }

  /** A found path is patched, leads somewhere, and has no dot in a key. */
  predicate Leads(v: Json, path: Path, r: Patch, p: Path) {
    && p in r && path < p && Get(v, p[|path|..]).Some?
    && forall i :: |path| <= i < |p| ==> '.' !in p[i]
  }

  lemma {:induction false} MarkedLeads(v: Json, fields: seq<Field>, path: Path, r: Patch)
    requires v.Obj? && Proper(v) && DotFree(v) && |fields| <= |v.fields| && fields == v.fields[|v.fields| - |fields|..]
    ensures forall p :: p in Marked(fields, path, r) ==> Leads(v, path, r, p)
    ensures forall p :: p in Marked(fields, path, r) ==>
              |path| < |p| && exists i :: 0 <= i < |fields| && fields[i].key == p[|path|]
    decreases v, |fields|
  {
    if fields == [] { return; }
    var i0 := |v.fields| - |fields|;
    var key, child, down := fields[0].key, fields[0].value, path + [fields[0].key];
    assert v.fields[i0] == fields[0] && v.fields[i0] < v;
    LookupDistinct(v.fields, i0);
    MarkedLeads(v, fields[1..], path, r);
    if down !in r && child.Obj? { MarkedLeads(child, child.fields, down, r); }
    forall p | p in Marked(fields, path, r)
      ensures Leads(v, path, r, p) && |path| < |p| && exists i :: 0 <= i < |fields| && fields[i].key == p[|path|]
    {
      if p in Marked(fields[1..], path, r) {
        var i :| 0 <= i < |fields[1..]| && fields[1..][i].key == p[|path|];
        assert fields[i + 1].key == p[|path|];
      } else {
        MarkedBelow(v, path, r, p, key, child);
      }
    }
  }

  lemma MarkedBelow(v: Json, path: Path, r: Patch, p: Path, key: string, child: Json)
    requires v.Obj? && Lookup(v.fields, key) == Some(child) && '.' !in key
    requires (p == path + [key] && p in r) || Leads(child, path + [key], r, p)
    ensures Leads(v, path, r, p) && p[|path|] == key
  {
    PrefixStep(path, key, p);
    assert p[|path|..][0] == key;
    assert p[|path|..][1..] == p[|path| + 1..];
    if p == path + [key] { assert Get(child, []) == Some(child); }
  }

  predicate NoRepeats<T(==)>(xs: seq<T>) { forall i, j :: 0 <= i < j < |xs| ==> xs[i] != xs[j] }

  lemma NoRepeatsTogether<T>(a: seq<T>, b: seq<T>)
    requires NoRepeats(a) && NoRepeats(b) && forall x :: x in a ==> x !in b
    ensures NoRepeats(a + b)
  {
    forall i, j | 0 <= i < j < |a + b| ensures (a + b)[i] != (a + b)[j] {
      if i < |a| <= j { assert a[i] in a && b[j - |a|] in b; }
    }
  }

  lemma {:induction false} MarkedOnce(v: Json, fields: seq<Field>, path: Path, r: Patch)
    requires v.Obj? && Proper(v) && DotFree(v) && |fields| <= |v.fields| && fields == v.fields[|v.fields| - |fields|..]
    ensures NoRepeats(Marked(fields, path, r))
    decreases v, |fields|
  {
    if fields == [] { return; }
    var i0 := |v.fields| - |fields|;
    var key, child, down := fields[0].key, fields[0].value, path + [fields[0].key];
    assert v.fields[i0] == fields[0] && v.fields[i0] < v;
    LookupDistinct(v.fields, i0);
    MarkedOnce(v, fields[1..], path, r);
    MarkedLeads(v, fields[1..], path, r);
    var here := if down in r then [down] else if child.Obj? then Marked(child.fields, down, r) else [];
    if down !in r && child.Obj? {
      MarkedOnce(child, child.fields, down, r);
      MarkedLeads(child, child.fields, down, r);
    }
    forall p | p in here ensures p !in Marked(fields[1..], path, r) {
      MarkedBelow(v, path, r, p, key, child);
      OtherKeys(v, i0, fields[1..]);
    }
    NoRepeatsTogether(here, Marked(fields[1..], path, r));
  }

  lemma OtherKeys(v: Json, i: nat, rest: seq<Field>)
    requires v.Obj? && DistinctKeys(v.fields) && i < |v.fields| && rest == v.fields[i + 1..]
    ensures forall j :: 0 <= j < |rest| ==> rest[j].key != v.fields[i].key
  {
    forall j | 0 <= j < |rest| ensures rest[j].key != v.fields[i].key {
      assert rest[j] == v.fields[i + 1 + j];
      KeysDiffer(v.fields, i, i + 1 + j);
    }
  }

  lemma {:induction false} KeysDiffer(fields: seq<Field>, i: nat, j: nat)
    requires DistinctKeys(fields) && i < j < |fields|
    ensures fields[i].key != fields[j].key
  {
    assert fields[1..][j - 1] == fields[j];
    if i == 0 {
      KeyFound(fields[1..], j - 1);
    } else {
      assert fields[1..][i - 1] == fields[i];
      KeysDiffer(fields[1..], i - 1, j - 1);
    }
  }

  /** Every patched path of the document is found. */
  lemma {:induction false} MarkedAll(fields: seq<Field>, path: Path, r: Patch, rest: Path)
    requires rest != [] && Get(Obj(fields), rest).Some? && path + rest in r && ClearAbove(r, path, path + rest)
    ensures path + rest in Marked(fields, path, r)
    decreases fields
  {
    var key, down := rest[0], path + [rest[0]];
    if fields[0].key != key {
      assert Get(Obj(fields[1..]), rest) == Get(Obj(fields), rest);
      MarkedAll(fields[1..], path, r, rest);
    } else if |rest| == 1 {
      assert path + rest == down;
    } else {
      assert path + rest == down + rest[1..];
      ClearBelow(r, path, down, path + rest);
      assert down !in r;
      MarkedAll(fields[0].value.fields, down, r, rest[1..]);
    }
  }

  // ----- decryption ----------------------------------------------------------------------------------------------

  /** What a path of the original decrypts to. */
  function Plain(t: Json, show: Json -> string, p: Path): Json {
    if Get(t, p).Some? then Str(Newlines(PlainText(Get(t, p).value, show))) else Str("")
  }

  /** The encrypted text in a marker. */
  function Data(v: Json): string {
    if Get(v, ["data"]).Some? && Get(v, ["data"]).value.Str? then Get(v, ["data"]).value.text else ""
  }

  /** The marker at `p` opens to the plain text of what the original has there. */
  ghost predicate Opens(c: Cipher, t: Json, show: Json -> string, r: Patch, p: Path) {
    && p in r && p != [] && Get(t, p).Some?
    && (forall i :: 0 <= i < |p| ==> '.' !in p[i])
    && r[p] == Marker(Data(r[p]))
    && c.open(Rearmed(Data(r[p]))) == Some(PlainText(Get(t, p).value, show))
  }

  function OpenOne(t: Json, show: Json -> string, r: Patch, p: Path, broken: set<string>): Patch
  { if Join(p, '.') in broken then r else r[p := Plain(t, show, p)] }

  function OpenAll(t: Json, show: Json -> string, r: Patch, ps: seq<Path>, broken: set<string>): Patch
    decreases |ps|
  { if ps == [] then r else OpenAll(t, show, OpenOne(t, show, r, ps[0], broken), ps[1..], broken) }

  function Broken(ps: seq<Path>, broken: set<string>): seq<string> {
    if ps == [] then []
    else (if Join(ps[0], '.') in broken then [Join(ps[0], '.')] else []) + Broken(ps[1..], broken)
  }

  /** One step on a tree whose entry at `path` opens. */
  lemma StepOpens(c: Cipher, o: Opened, dotted: string, broken: set<string>, data: string, plain: string, tree: Json)
    requires Get(o.tree, Split(dotted, '.')) == Some(Marker(data)) && c.open(Rearmed(data)) == Some(plain)
    requires Put(o.tree, Split(dotted, '.'), Str(Newlines(plain))) == Some(tree)
    ensures DecryptStep(c, o, dotted, broken)
            == Some(if dotted in broken then Opened(o.tree, o.errors + [dotted]) else Opened(tree, o.errors))
  {
    MarkerData(data);
  }

  lemma OneOpens(c: Cipher, t: Json, show: Json -> string, r: Patch, p: Path, broken: set<string>, errors: seq<string>)
    requires Proper(t) && t.Obj? && Antichain(r) && Opens(c, t, show, r, p)
    ensures DecryptStep(c, Opened(Within(t, [], r), errors), Join(p, '.'), broken)
            == Some(Opened(Within(t, [], OpenOne(t, show, r, p, broken)), errors + Broken([p], broken)))
  {
    forall x | x in p ensures '.' !in x { }
    SplitJoin(p, '.');
    assert [] + p == p;
    GetAt(t, [], r, p);
    PutAt(t, [], r, p, Plain(t, show, p));
    StepOpens(c, Opened(Within(t, [], r), errors), Join(p, '.'), broken, Data(r[p]),
              PlainText(Get(t, p).value, show), Within(t, [], r[p := Plain(t, show, p)]));
    BrokenOne(p, broken);
    assert errors + [] == errors;
  }

  lemma BrokenOne(p: Path, broken: set<string>)
    ensures Broken([p], broken) == if Join(p, '.') in broken then [Join(p, '.')] else []
  {
    assert [p][1..] == [];
    assert Broken([], broken) == [];
  }

  lemma MarkerData(data: string)
    ensures IsMarker(Marker(data)) && Get(Marker(data), ["data"]) == Some(Str(data))
  {
    var fields := Marker(data).fields;
    assert ENCRYPTED[0] == '_' && "cipher"[0] == 'c' && "data"[0] == 'd';
    assert Lookup(fields, "data") == Lookup(fields[1..], "data") == Lookup(fields[2..], "data");
    assert Get(Str(data), []) == Some(Str(data));
  }

  lemma OthersStillOpen(c: Cipher, t: Json, show: Json -> string, r: Patch, ps: seq<Path>, broken: set<string>)
    requires ps != [] && NoRepeats(ps) && forall p :: p in ps ==> Opens(c, t, show, r, p)
    ensures NoRepeats(ps[1..]) && ps[0] in ps
    ensures forall q :: q in ps[1..] ==> q in ps && Opens(c, t, show, OpenOne(t, show, r, ps[0], broken), q)
    ensures Antichain(r) ==> Antichain(OpenOne(t, show, r, ps[0], broken))
  {
    var rest, r1 := ps[1..], OpenOne(t, show, r, ps[0], broken);
    forall q | q in rest ensures q in ps && Opens(c, t, show, r1, q) {
      var j :| 0 <= j < |rest| && rest[j] == q;
      assert ps[j + 1] == q;
      assert Opens(c, t, show, r, q);
      assert r1[q] == r[q];
    }
    forall i, j | 0 <= i < j < |rest| ensures rest[i] != rest[j] {
      assert ps[i + 1] == rest[i] && ps[j + 1] == rest[j];
    }
  }

  lemma {:induction false} EachOpens(c: Cipher, t: Json, show: Json -> string, r: Patch, ps: seq<Path>,
                                     broken: set<string>, errors: seq<string>)
    requires Proper(t) && t.Obj? && Antichain(r) && NoRepeats(ps)
    requires forall p :: p in ps ==> Opens(c, t, show, r, p)
    ensures DecryptEach(c, Opened(Within(t, [], r), errors), Dotted(ps), broken)
            == Some(Opened(Within(t, [], OpenAll(t, show, r, ps, broken)), errors + Broken(ps, broken)))
    decreases |ps|
  {
    if ps == [] {
      assert errors + [] == errors;
      return;
    }
    OthersStillOpen(c, t, show, r, ps, broken);
    var p, rest := ps[0], ps[1..];
    OneOpens(c, t, show, r, p, broken, errors);
    EachOpens(c, t, show, OpenOne(t, show, r, p, broken), rest, broken, errors + Broken([p], broken));
    EachStep(c, Opened(Within(t, [], r), errors), Join(p, '.'), Dotted(rest), broken);
    Unroll(t, show, r, ps, broken, errors);
  }

  lemma Unroll(t: Json, show: Json -> string, r: Patch, ps: seq<Path>, broken: set<string>, errors: seq<string>)
    requires ps != []
    ensures Dotted(ps) == [Join(ps[0], '.')] + Dotted(ps[1..])
    ensures OpenAll(t, show, r, ps, broken) == OpenAll(t, show, OpenOne(t, show, r, ps[0], broken), ps[1..], broken)
    ensures errors + Broken([ps[0]], broken) + Broken(ps[1..], broken) == errors + Broken(ps, broken)
  {
    BrokenOne(ps[0], broken);
    var a, b := Broken([ps[0]], broken), Broken(ps[1..], broken);
    assert Broken(ps, broken) == a + b;
    assert errors + a + b == errors + (a + b);
  }

  lemma EachStep(c: Cipher, o: Opened, first: string, rest: seq<string>, broken: set<string>)
    requires DecryptStep(c, o, first, broken).Some?
    ensures DecryptEach(c, o, [first] + rest, broken)
            == DecryptEach(c, DecryptStep(c, o, first, broken).value, rest, broken)
  {
    assert ([first] + rest)[1..] == rest;
  }

  // ----- the results ---------------------------------------------------------------------------------------------

  /** The paths found encrypted are the patched ones. */
  lemma FoundIsPatched(t: Json, r: Patch)
    requires Sound(t) && Antichain(r) && forall p :: p in r ==> p != [] && Get(t, p).Some?
    ensures NoRepeats(Marked(t.fields, [], r))
    ensures forall p :: p in Marked(t.fields, [], r) <==> p in r
    ensures forall p :: p in r ==> forall i :: 0 <= i < |p| ==> '.' !in p[i]
  {
    MarkedOnce(t, t.fields, [], r);
    MarkedLeads(t, t.fields, [], r);
    forall p | p in r ensures p in Marked(t.fields, [], r) {
      assert [] + p == p && Obj(t.fields) == t;
      MarkedAll(t.fields, [], r, p);
    }
  }

  lemma PatchedPaths(c: Cipher, show: Json -> string, t: Json, paths: seq<string>, outcomes: seq<Outcome>)
    requires |outcomes| == |paths| && Named(t, paths)
    ensures forall p :: p in PatchOf(c, show, t, paths, outcomes) ==> p != [] && Get(t, p).Some?
  {
    forall p | p in PatchOf(c, show, t, paths, outcomes) ensures p != [] && Get(t, p).Some? {
      PatchKeys(c, show, t, paths, outcomes, p);
    }
  }

  /** Everything `EachOpens` needs of the encrypted fields found. */
  lemma FoundFieldsOpen(c: Cipher, show: Json -> string, t: Json, paths: seq<string>, outcomes: seq<Outcome>)
    requires Works(c) && Sound(t) && |outcomes| == |paths| && Named(t, paths)
    ensures var r := PatchOf(c, show, t, paths, outcomes);
            && Sealing(r) && Antichain(r) && NoRepeats(Marked(t.fields, [], r))
            && (forall p :: p in r ==> Opens(c, t, show, r, p))
            && (forall p :: p in Marked(t.fields, [], r) <==> p in r)
  {
    var r := PatchOf(c, show, t, paths, outcomes);
    PatchIsAntichain(c, show, t, paths, outcomes);
    PatchedPaths(c, show, t, paths, outcomes);
    FoundIsPatched(t, r);
    forall p | p in r ensures IsMarker(r[p]) && Opens(c, t, show, r, p) { PatchOpens(c, show, t, paths, outcomes, p); }
  }

  lemma PatchOpens(c: Cipher, show: Json -> string, t: Json, paths: seq<string>, outcomes: seq<Outcome>, p: Path)
    requires Works(c) && |outcomes| == |paths| && Named(t, paths) && p in PatchOf(c, show, t, paths, outcomes)
    requires p != [] && forall i :: 0 <= i < |p| ==> '.' !in p[i]
    ensures IsMarker(PatchOf(c, show, t, paths, outcomes)[p])
    ensures Opens(c, t, show, PatchOf(c, show, t, paths, outcomes), p)
  {
    var i := SealedIndex(c, show, t, paths, outcomes, p);
    SealedValueOpens(c, Target(t, paths, i), show, outcomes[i].salt);
  }

  lemma SealedValueOpens(c: Cipher, v: Json, show: Json -> string, salt: string)
    requires Works(c)
    ensures var m := SealedValue(c, v, show, salt);
            IsMarker(m) && m == Marker(Data(m)) && c.open(Rearmed(Data(m))) == Some(PlainText(v, show))
  {
    SealedOpens(c, salt, PlainText(v, show));
    MarkerData(Strip(Newlines(c.seal(salt, PlainText(v, show)))));
  }

  lemma SealedIndex(c: Cipher, show: Json -> string, t: Json, paths: seq<string>, outcomes: seq<Outcome>, p: Path)
    returns (i: nat)
    requires |outcomes| == |paths| && Named(t, paths) && p in PatchOf(c, show, t, paths, outcomes)
    ensures i < |paths| && p == Split(paths[i], '.') && outcomes[i].Sealed?
    ensures PatchOf(c, show, t, paths, outcomes)[p] == SealedValue(c, Target(t, paths, i), show, outcomes[i].salt)
  {
    PatchKeys(c, show, t, paths, outcomes, p);
    i :| 0 <= i < |paths| && p == Split(paths[i], '.') && outcomes[i].Sealed?;
    PatchValue(c, show, t, paths, outcomes, i);
  }

  /** The configuration that a round trip ends with, as replacements in the original. */
  function Final(c: Cipher, show: Json -> string, t: Json, paths: seq<string>, outcomes: seq<Outcome>,
                 broken: set<string>): Patch
    requires t.Obj? && |outcomes| == |paths| && forall i :: 0 <= i < |paths| ==> Get(t, Split(paths[i], '.')).Some?
  {
    var r := PatchOf(c, show, t, paths, outcomes);
    OpenAll(t, show, r, Marked(t.fields, [], r), broken)
  }

  lemma {:induction false} OpenedValue(t: Json, show: Json -> string, r: Patch, ps: seq<Path>, broken: set<string>,
                                       q: Path)
    requires NoRepeats(ps) && forall p :: p in ps ==> p in r
    ensures q in OpenAll(t, show, r, ps, broken) <==> q in r
    ensures q in r ==> OpenAll(t, show, r, ps, broken)[q]
                       == if q in ps && Join(q, '.') !in broken then Plain(t, show, q) else r[q]
    decreases |ps|
  {
    if ps == [] { return; }
    var rest := ps[1..];
    forall i, j | 0 <= i < j < |rest| ensures rest[i] != rest[j] {
      assert ps[i + 1] == rest[i] && ps[j + 1] == rest[j];
    }
    OpenedValue(t, show, OpenOne(t, show, r, ps[0], broken), rest, broken, q);
    forall j | 0 <= j < |rest| ensures rest[j] != ps[0] { assert rest[j] == ps[j + 1]; }
  }

  lemma {:induction false} BrokenExactly(ps: seq<Path>, broken: set<string>, s: string)
    ensures s in Broken(ps, broken) <==> s in broken && exists i :: 0 <= i < |ps| && Join(ps[i], '.') == s
  {
    if ps == [] { return; }
    BrokenExactly(ps[1..], broken, s);
    if s in Broken(ps[1..], broken) {
      var i :| 0 <= i < |ps[1..]| && Join(ps[1..][i], '.') == s;
      assert ps[i + 1] == ps[1..][i];
    }
    if exists i :: 0 <= i < |ps| && Join(ps[i], '.') == s {
      var i :| 0 <= i < |ps| && Join(ps[i], '.') == s;
      if i > 0 { assert ps[1..][i - 1] == ps[i]; }
    }
  }

  /** Decryption after encryption, whichever calls of the tool fail: it comes to an end, and its errors are exactly the
      fields that were encrypted and could not be decrypted. */
  lemma RoundTrip(c: Cipher, show: Json -> string, t: Json, paths: seq<string>, outcomes: seq<Outcome>,
                  broken: set<string>)
    requires Works(c) && Sound(t) && |outcomes| == |paths| && Named(t, paths)
    ensures Encrypt(c, show, t, paths, outcomes).Some?
    ensures var d := Decrypt(c, Encrypt(c, show, t, paths, outcomes).value, broken);
            && d.Some?
            && d.value.tree == Within(t, [], Final(c, show, t, paths, outcomes, broken))
            && d.value.errors == Broken(Marked(t.fields, [], PatchOf(c, show, t, paths, outcomes)), broken)
            && forall s :: s in d.value.errors <==>
                 s in broken && exists i :: 0 <= i < |paths| && outcomes[i].Sealed? && paths[i] == s
  {
    var r := PatchOf(c, show, t, paths, outcomes);
    EncryptIsPatch(c, show, t, paths, outcomes);
    FoundFieldsOpen(c, show, t, paths, outcomes);
    var ps := Marked(t.fields, [], r);
    FindIsMarked(t.fields, [], r);
    EachOpens(c, t, show, r, ps, broken, []);
    assert [] + Broken(ps, broken) == Broken(ps, broken);
    forall s ensures s in Broken(ps, broken) <==>
                       s in broken && exists i :: 0 <= i < |paths| && outcomes[i].Sealed? && paths[i] == s {
      BrokenExactly(ps, broken, s);
      FoundAreSealed(c, show, t, paths, outcomes, ps, s);
    }
  }

  lemma FoundAreSealed(c: Cipher, show: Json -> string, t: Json, paths: seq<string>, outcomes: seq<Outcome>,
                       ps: seq<Path>, s: string)
    requires |outcomes| == |paths| && Named(t, paths)
    requires forall p :: p in ps <==> p in PatchOf(c, show, t, paths, outcomes)
    ensures (exists k :: 0 <= k < |ps| && Join(ps[k], '.') == s)
            <==> exists i :: 0 <= i < |paths| && outcomes[i].Sealed? && paths[i] == s
  {
    if k :| 0 <= k < |ps| && Join(ps[k], '.') == s {
      assert ps[k] in ps;
      var i := SealedPath(c, show, t, paths, outcomes, ps[k]);
    }
    if i :| 0 <= i < |paths| && outcomes[i].Sealed? && paths[i] == s {
      SealedPathIn(c, show, t, paths, outcomes, i);
      var k :| 0 <= k < |ps| && ps[k] == Split(s, '.');
    }
  }

  lemma SealedPath(c: Cipher, show: Json -> string, t: Json, paths: seq<string>, outcomes: seq<Outcome>, p: Path)
    returns (i: nat)
    requires |outcomes| == |paths| && Named(t, paths) && p in PatchOf(c, show, t, paths, outcomes)
    ensures i < |paths| && outcomes[i].Sealed? && paths[i] == Join(p, '.')
  {
    i := SealedIndex(c, show, t, paths, outcomes, p);
    JoinSplit(paths[i], '.');
  }

  lemma SealedPathIn(c: Cipher, show: Json -> string, t: Json, paths: seq<string>, outcomes: seq<Outcome>, i: nat)
    requires |outcomes| == |paths| && Named(t, paths) && i < |paths| && outcomes[i].Sealed?
    ensures Split(paths[i], '.') in PatchOf(c, show, t, paths, outcomes)
    ensures Join(Split(paths[i], '.'), '.') == paths[i]
  {
    PatchValue(c, show, t, paths, outcomes, i);
    JoinSplit(paths[i], '.');
  }

  lemma ReadPatched(t: Json, r: Patch, p: Path)
    requires Proper(t) && Antichain(r) && p in r && p != [] && Get(t, p).Some?
    ensures Get(Within(t, [], r), p) == Some(r[p])
  {
    assert [] + p == p;
    GetAt(t, [], r, p);
  }

  /** Each encrypted field comes back as its plain text, with the line ends of a text file, or stays encrypted exactly
      as it was when decrypting it fails. */
  lemma EncryptedFieldComesBack(c: Cipher, show: Json -> string, t: Json, paths: seq<string>, outcomes: seq<Outcome>,
                                broken: set<string>, i: nat)
    requires Works(c) && Sound(t) && |outcomes| == |paths| && Named(t, paths) && i < |paths| && outcomes[i].Sealed?
    ensures var e := Encrypt(c, show, t, paths, outcomes);
            && e.Some? && Decrypt(c, e.value, broken).Some?
            && Get(Decrypt(c, e.value, broken).value.tree, Split(paths[i], '.'))
               == if paths[i] in broken then Get(e.value, Split(paths[i], '.'))
                  else Some(Str(Newlines(PlainText(Target(t, paths, i), show))))
  {
    RoundTrip(c, show, t, paths, outcomes, broken);
    var r, p := PatchOf(c, show, t, paths, outcomes), Split(paths[i], '.');
    FoundFieldsOpen(c, show, t, paths, outcomes);
    PatchValue(c, show, t, paths, outcomes, i);
    JoinSplit(paths[i], '.');
    OpenedValue(t, show, r, Marked(t.fields, [], r), broken, p);
    FinalIsAntichain(c, show, t, paths, outcomes, broken);
    EncryptIsPatch(c, show, t, paths, outcomes);
    ReadPatched(t, r, p);
    ReadPatched(t, Final(c, show, t, paths, outcomes, broken), p);
  }

  lemma FinalIsAntichain(c: Cipher, show: Json -> string, t: Json, paths: seq<string>, outcomes: seq<Outcome>,
                         broken: set<string>)
    requires Works(c) && Sound(t) && |outcomes| == |paths| && Named(t, paths)
    ensures Antichain(Final(c, show, t, paths, outcomes, broken))
  {
    FoundFieldsOpen(c, show, t, paths, outcomes);
    var r := PatchOf(c, show, t, paths, outcomes);
    var ps := Marked(t.fields, [], r);
    var f := Final(c, show, t, paths, outcomes, broken);
    forall p, q | p in f && q in f && p <= q ensures p == q {
      OpenedValue(t, show, r, ps, broken, p);
      OpenedValue(t, show, r, ps, broken, q);
    }
  }

  /** A field that is not named, does not hold a named one and does not lie in one, is the same throughout. */
  lemma OtherFieldsUntouched(c: Cipher, show: Json -> string, t: Json, paths: seq<string>, outcomes: seq<Outcome>,
                             broken: set<string>, q: Path)
    requires Works(c) && Sound(t) && |outcomes| == |paths| && Named(t, paths) && q != [] && Get(t, q).Some?
    requires forall i :: 0 <= i < |paths| ==> !(Split(paths[i], '.') <= q) && !(q <= Split(paths[i], '.'))
    ensures var e := Encrypt(c, show, t, paths, outcomes);
            && e.Some? && Get(e.value, q) == Get(t, q)
            && Decrypt(c, e.value, broken).Some? && Get(Decrypt(c, e.value, broken).value.tree, q) == Get(t, q)
  {
    RoundTrip(c, show, t, paths, outcomes, broken);
    EncryptIsPatch(c, show, t, paths, outcomes);
    FinalIsAntichain(c, show, t, paths, outcomes, broken);
    FoundFieldsOpen(c, show, t, paths, outcomes);
    var r := PatchOf(c, show, t, paths, outcomes);
    forall p | p in r ensures !(p <= q) && !(q <= p) { var i := SealedIndex(c, show, t, paths, outcomes, p); }
    Untouched(t, r, q);
    var f := Final(c, show, t, paths, outcomes, broken);
    forall p | p in f ensures p in r { OpenedValue(t, show, r, Marked(t.fields, [], r), broken, p); }
    Untouched(t, f, q);
  }

  lemma Untouched(t: Json, r: Patch, q: Path)
    requires Proper(t) && q != [] && Get(t, q).Some? && forall p :: p in r ==> !(p <= q) && !(q <= p)
    ensures Get(Within(t, [], r), q) == Get(t, q)
  {
    assert [] + q == q;
    GetAt(t, [], r, q);
    GetProper(t, q);
    AtUnchanged(Get(t, q).value, q, r);
  }

  /** Text without a carriage return: what a decrypted file read as text gives back unchanged. */
  predicate Plainly(v: Json) { v.Str? && '\r' !in v.text }

  /** The round trip restores the original exactly when every field that was encrypted could be decrypted, was text to
      begin with and holds no carriage return: a number or a section comes back as text, and a carriage return as a
      newline. */
  lemma RestoresExactly(c: Cipher, show: Json -> string, t: Json, paths: seq<string>, outcomes: seq<Outcome>,
                        broken: set<string>)
    requires Works(c) && Sound(t) && |outcomes| == |paths| && Named(t, paths)
    ensures var e := Encrypt(c, show, t, paths, outcomes);
            && e.Some? && Decrypt(c, e.value, broken).Some?
            && (Decrypt(c, e.value, broken).value.tree == t <==>
                  forall i :: 0 <= i < |paths| && outcomes[i].Sealed? ==>
                    paths[i] !in broken && Plainly(Target(t, paths, i)))
  {
    RoundTrip(c, show, t, paths, outcomes, broken);
    var d := Decrypt(c, Encrypt(c, show, t, paths, outcomes).value, broken).value.tree;
    if d == t {
      forall i | 0 <= i < |paths| && outcomes[i].Sealed? ensures paths[i] !in broken && Plainly(Target(t, paths, i)) {
        RestoredIsPlain(c, show, t, paths, outcomes, broken, i);
      }
    }
    if forall i :: 0 <= i < |paths| && outcomes[i].Sealed? ==> paths[i] !in broken && Plainly(Target(t, paths, i)) {
      PlainIsRestored(c, show, t, paths, outcomes, broken);
    }
  }

  lemma PlainlyExactly(v: Json, show: Json -> string)
    ensures Str(Newlines(PlainText(v, show))) == v <==> Plainly(v)
  {
    if v.Str? { NewlinesExactly(v.text); }
  }

  lemma RestoredIsPlain(c: Cipher, show: Json -> string, t: Json, paths: seq<string>, outcomes: seq<Outcome>,
                        broken: set<string>, i: nat)
    requires Works(c) && Sound(t) && |outcomes| == |paths| && Named(t, paths) && i < |paths| && outcomes[i].Sealed?
    requires Encrypt(c, show, t, paths, outcomes).Some?
    requires Decrypt(c, Encrypt(c, show, t, paths, outcomes).value, broken).Some?
    requires Decrypt(c, Encrypt(c, show, t, paths, outcomes).value, broken).value.tree == t
    ensures paths[i] !in broken && Plainly(Target(t, paths, i))
  {
    EncryptedFieldComesBack(c, show, t, paths, outcomes, broken, i);
    EncryptedIsNotOriginal(c, show, t, paths, outcomes, i);
    PlainlyExactly(Target(t, paths, i), show);
  }

  lemma PlainIsRestored(c: Cipher, show: Json -> string, t: Json, paths: seq<string>, outcomes: seq<Outcome>,
                        broken: set<string>)
    requires Works(c) && Sound(t) && |outcomes| == |paths| && Named(t, paths)
    requires forall i :: 0 <= i < |paths| && outcomes[i].Sealed? ==> paths[i] !in broken && Plainly(Target(t, paths, i))
    ensures Within(t, [], Final(c, show, t, paths, outcomes, broken)) == t
  {
    FoundFieldsOpen(c, show, t, paths, outcomes);
    var r, f := PatchOf(c, show, t, paths, outcomes), Final(c, show, t, paths, outcomes, broken);
    forall q | q in f ensures Some(f[q]) == Get(t, q) {
      OpenedValue(t, show, r, Marked(t.fields, [], r), broken, q);
      var i := SealedIndex(c, show, t, paths, outcomes, q);
      JoinSplit(paths[i], '.');
      PlainlyExactly(Target(t, paths, i), show);
    }
    forall q | q in f && [] < q && Get(t, q[0..]).Some? ensures Some(f[q]) == Get(t, q[0..]) { assert q[0..] == q; }
    AtUnchanged(t, [], f);
  }

  /** A text of two lines with carriage returns comes back with newlines alone. */
  lemma CarriageReturnComesBackChanged(c: Cipher, show: Json -> string, t: Json, paths: seq<string>,
                                       outcomes: seq<Outcome>, i: nat)
    requires Works(c) && Sound(t) && |outcomes| == |paths| && Named(t, paths) && i < |paths| && outcomes[i].Sealed?
    requires Target(t, paths, i) == Str("a\r\nb")
    ensures var e := Encrypt(c, show, t, paths, outcomes);
            && e.Some? && Decrypt(c, e.value, {}).Some?
            && Get(Decrypt(c, e.value, {}).value.tree, Split(paths[i], '.')) == Some(Str("a\nb"))
  {
    EncryptedFieldComesBack(c, show, t, paths, outcomes, {}, i);
    CarriageReturnIsLost();
  }

  // ----- paths that do not exist ---------------------------------------------------------------------------------

  /** No path is another one or lies inside one. */
  predicate Unrelated(paths: seq<string>) {
    forall i, j :: 0 <= i < |paths| && 0 <= j < |paths| && i != j ==>
      !(Split(paths[i], '.') <= Split(paths[j], '.'))
  }

  /** Encryption of unrelated paths stops exactly when one of them does not exist, whatever becomes of the others. */
  lemma {:induction false} EncryptStopsExactly(c: Cipher, show: Json -> string, t: Json, paths: seq<string>,
                                               outcomes: seq<Outcome>)
    requires Proper(t) && |outcomes| == |paths| && Unrelated(paths)
    ensures Encrypt(c, show, t, paths, outcomes).None?
            <==> exists i :: 0 <= i < |paths| && Get(t, Split(paths[i], '.')).None?
  {
    if forall i :: 0 <= i < |paths| ==> Get(t, Split(paths[i], '.')).Some? {
      EncryptIsPatch(c, show, t, paths, outcomes);
    } else {
      var i := FirstMissing(t, paths, |paths|);
      MissingStops(c, show, t, paths, outcomes, i);
    }
  }

  lemma {:induction false} FirstMissing(t: Json, paths: seq<string>, n: nat) returns (i: nat)
    requires n <= |paths| && exists k :: 0 <= k < n && Get(t, Split(paths[k], '.')).None?
    ensures i < n && Get(t, Split(paths[i], '.')).None?
    ensures forall k :: 0 <= k < i ==> Get(t, Split(paths[k], '.')).Some?
  {
    if exists k :: 0 <= k < n - 1 && Get(t, Split(paths[k], '.')).None? {
      i := FirstMissing(t, paths, n - 1);
    } else {
      i := n - 1;
    }
  }

  lemma MissingStops(c: Cipher, show: Json -> string, t: Json, paths: seq<string>, outcomes: seq<Outcome>, i: nat)
    requires Proper(t) && |outcomes| == |paths| && Unrelated(paths) && i < |paths|
    requires Get(t, Split(paths[i], '.')).None? && forall k :: 0 <= k < i ==> Get(t, Split(paths[k], '.')).Some?
    ensures Encrypt(c, show, t, paths, outcomes).None?
  {
    var before, p := paths[..i], Split(paths[i], '.');
    var r := PatchOf(c, show, t, before, outcomes[..i]);
    EncryptIsPatch(c, show, t, before, outcomes[..i]);
    forall q | q in r ensures !(q <= p) {
      PatchKeys(c, show, t, before, outcomes[..i], q);
      var k :| 0 <= k < i && q == Split(before[k], '.');
      assert q == Split(paths[k], '.');
    }
    assert [] + p == p;
    GetMissing(t, [], r, p);
    assert paths[..i + 1][..i] == before && outcomes[..i + 1][..i] == outcomes[..i];
    EncryptFailsEarly(c, show, t, paths, outcomes, i + 1);
  }

  /** What stands in place of a sealed field: the marker, the name of the cipher, and the sealed text without the
      whitespace around it. */
  lemma SealedFieldExactly(c: Cipher, show: Json -> string, t: Json, paths: seq<string>, outcomes: seq<Outcome>, i: nat)
    requires Works(c) && Sound(t) && |outcomes| == |paths| && Named(t, paths) && i < |paths| && outcomes[i].Sealed?
    ensures var e := Encrypt(c, show, t, paths, outcomes);
            var v := Target(t, paths, i);
            && e.Some?
            && Get(e.value, Split(paths[i], '.')) ==
               Some(Obj([Field("__encrypted__", Bool(true)), Field("cipher", Str("aes-256-cbc-pbkdf2")),
                         Field("data", Str(Strip(Newlines(c.seal(outcomes[i].salt,
                                                                 if v.Str? then v.text else show(v))))))]))
  {
    var r, p := PatchOf(c, show, t, paths, outcomes), Split(paths[i], '.');
    EncryptIsPatch(c, show, t, paths, outcomes);
    FoundFieldsOpen(c, show, t, paths, outcomes);
    PatchValue(c, show, t, paths, outcomes, i);
    ReadPatched(t, r, p);
  }

  /** A field whose encryption fails stays as it is. */
  lemma FailedFieldStays(c: Cipher, show: Json -> string, t: Json, paths: seq<string>, outcomes: seq<Outcome>, i: nat)
    requires Works(c) && Sound(t) && |outcomes| == |paths| && Named(t, paths) && i < |paths| && outcomes[i].Failed?
    ensures var e := Encrypt(c, show, t, paths, outcomes);
            e.Some? && Get(e.value, Split(paths[i], '.')) == Some(Target(t, paths, i))
  {
    var r, p := PatchOf(c, show, t, paths, outcomes), Split(paths[i], '.');
    EncryptIsPatch(c, show, t, paths, outcomes);
    forall q | q in r ensures !(q <= p) && !(p <= q) {
      PatchKeys(c, show, t, paths, outcomes, q);
      var k :| 0 <= k < |paths| && q == Split(paths[k], '.') && outcomes[k].Sealed?;
      assert k != i;
    }
    Untouched(t, r, p);
  }

  /** An encrypted field is not what the original had there, since the original holds no marker. */
  lemma EncryptedIsNotOriginal(c: Cipher, show: Json -> string, t: Json, paths: seq<string>, outcomes: seq<Outcome>,
                               i: nat)
    requires Works(c) && Sound(t) && |outcomes| == |paths| && Named(t, paths) && i < |paths| && outcomes[i].Sealed?
    ensures Encrypt(c, show, t, paths, outcomes).Some?
    ensures Get(Encrypt(c, show, t, paths, outcomes).value, Split(paths[i], '.')) != Get(t, Split(paths[i], '.'))
  {
    var r, p := PatchOf(c, show, t, paths, outcomes), Split(paths[i], '.');
    EncryptIsPatch(c, show, t, paths, outcomes);
    FoundFieldsOpen(c, show, t, paths, outcomes);
    PatchValue(c, show, t, paths, outcomes, i);
    ReadPatched(t, r, p);
    BelowUnmarked(t, p);
  }

  lemma {:induction false} BelowUnmarked(v: Json, path: Path)
    requires Unmarked(v) && path != [] && Get(v, path).Some?
    ensures !IsMarker(Get(v, path).value)
    decreases |path|
  {
    LookupIsProper(v.fields, path[0]);
    var i :| 0 <= i < |v.fields| && v.fields[i].value == Lookup(v.fields, path[0]).value;
    if |path| > 1 { BelowUnmarked(v.fields[i].value, path[1..]); }
  }
}
