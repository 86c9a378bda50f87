/** Nested configuration dictionaries, dotted access into them, and replacing the values at a set of paths. */
module ConfigTree {
  import opened Basics
  import opened Text

  // `Atom` is a number, a null or a list: nothing is ever looked up inside one.
  datatype Json = Str(text: string) | Bool(on: bool) | Atom(what: int) | Obj(fields: seq<Field>)
  datatype Field = Field(key: string, value: Json)

  type Path = seq<string>

  /** No key occurs twice in one dictionary. */
  predicate DistinctKeys(fields: seq<Field>) {
    fields == [] || (Lookup(fields[1..], fields[0].key).None? && DistinctKeys(fields[1..]))
  }

  predicate Proper(v: Json) {
    v.Obj? ==> DistinctKeys(v.fields) && forall i :: 0 <= i < |v.fields| ==> Proper(v.fields[i].value)
  }

  // ----- dotted access -------------------------------------------------------------------------------------------

  function Lookup(fields: seq<Field>, key: string): Option<Json> {
    if fields == [] then None else if fields[0].key == key then Some(fields[0].value) else Lookup(fields[1..], key)
  }

  function Get(v: Json, path: Path): Option<Json>
    decreases |path|
  {
    if path == [] then Some(v)
    else if !v.Obj? || Lookup(v.fields, path[0]).None? then None
    else Get(Lookup(v.fields, path[0]).value, path[1..])
  }

  function SetField(fields: seq<Field>, key: string, value: Json): seq<Field> {
    if fields == [] then [Field(key, value)]
    else if fields[0].key == key then [Field(key, value)] + fields[1..]
    else [fields[0]] + SetField(fields[1..], key, value)
  }

  /** Nothing, when some step on the way raises. */
  function Put(v: Json, path: Path, value: Json): Option<Json>
    requires path != []
    decreases |path|
  {
    if !v.Obj? then None
    else if |path| == 1 then Some(Obj(SetField(v.fields, path[0], value)))
    else if Lookup(v.fields, path[0]).None? then None
    else
      var child := Put(Lookup(v.fields, path[0]).value, path[1..], value);
      if child.None? then None else Some(Obj(SetField(v.fields, path[0], child.value)))
  }

  /** `get_dotted`. */
  method GetDotted(config: Json, dotted: string) returns (value: Option<Json>)
    ensures value == Get(config, Split(dotted, '.'))
  {
    var path, node := Split(dotted, '.'), config;
    var k := 0;
    while k < |path|
      invariant 0 <= k <= |path| && Get(config, path) == Get(node, path[k..])
    {
      assert path[k..][1..] == path[k + 1..];
      if !node.Obj? || Lookup(node.fields, path[k]).None? { return None; }
      node := Lookup(node.fields, path[k]).value;
      k := k + 1;
    }
    value := Some(node);
  }

  // ----- replacing many values at once ---------------------------------------------------------------------------

  type Patch = map<Path, Json>

  /** The value `v` at `path`, with the replacements of `r`. */
  function At(v: Json, path: Path, r: Patch): Json
    decreases v, 1
  { if path in r then r[path] else Within(v, path, r) }

  function Within(v: Json, path: Path, r: Patch): Json
    decreases v, 0
  { if v.Obj? then Obj(FieldsAt(v.fields, path, r)) else v }

  function FieldsAt(fields: seq<Field>, path: Path, r: Patch): (w: seq<Field>)
    ensures |w| == |fields|
    decreases fields, 0
  {
    if fields == [] then []
    else [Field(fields[0].key, At(fields[0].value, path + [fields[0].key], r))] + FieldsAt(fields[1..], path, r)
  }

  lemma {:induction false} LookupAt(fields: seq<Field>, path: Path, r: Patch, key: string)
    ensures Lookup(fields, key).None? ==> Lookup(FieldsAt(fields, path, r), key).None?
    ensures Lookup(fields, key).Some? ==>
              Lookup(FieldsAt(fields, path, r), key) == Some(At(Lookup(fields, key).value, path + [key], r))
  {
    if fields != [] {
      var w := FieldsAt(fields, path, r);
      assert w[1..] == FieldsAt(fields[1..], path, r);
      LookupAt(fields[1..], path, r, key);
    }
  }

  lemma {:induction false} LookupIsProper(fields: seq<Field>, key: string)
    requires Lookup(fields, key).Some?
    ensures exists i :: 0 <= i < |fields| && fields[i].key == key && fields[i].value == Lookup(fields, key).value
  {
    if fields[0].key != key {
      LookupIsProper(fields[1..], key);
      var i :| 0 <= i < |fields[1..]| && fields[1..][i].key == key && fields[1..][i].value == Lookup(fields, key).value;
      assert fields[i + 1] == fields[1..][i];
    } else {
      assert fields[0].value == Lookup(fields, key).value;
    }
  }

  lemma PrefixStep(path: Path, key: string, p: Path)
    requires path + [key] <= p
    ensures path <= p && |path| < |p| && p[|path|] == key
  {
    assert (path + [key])[|path|] == key;
  }

  /** A replacement elsewhere does not show here. */
  lemma {:induction false} AtElsewhere(v: Json, path: Path, r: Patch, p: Path, w: Json)
    requires !(path <= p)
    ensures At(v, path, r[p := w]) == At(v, path, r)
    decreases v, 1
  {
    if v.Obj? { FieldsElsewhere(v.fields, path, r, p, w); }
  }

  lemma {:induction false} FieldsElsewhere(fields: seq<Field>, path: Path, r: Patch, p: Path, w: Json)
    requires forall i :: 0 <= i < |fields| ==> !(path + [fields[i].key] <= p)
    ensures FieldsAt(fields, path, r[p := w]) == FieldsAt(fields, path, r)
    decreases fields, 0
  {
    if fields != [] {
      AtElsewhere(fields[0].value, path + [fields[0].key], r, p, w);
      forall i | 0 <= i < |fields[1..]| ensures !(path + [fields[1..][i].key] <= p) {
        assert fields[1..][i] == fields[i + 1];
      }
      FieldsElsewhere(fields[1..], path, r, p, w);
    }
  }

  /** No replacement above `p`, from `path` (exclusive) on. */
  predicate ClearAbove(r: Patch, path: Path, p: Path) { forall q :: q in r && path <= q < p ==> q == path }

  lemma {:induction false} SetFieldAt(fields: seq<Field>, path: Path, r: Patch, key: string, p: Path, w: Json)
    requires DistinctKeys(fields) && Lookup(fields, key).Some? && path + [key] <= p
    ensures SetField(FieldsAt(fields, path, r), key, At(Lookup(fields, key).value, path + [key], r[p := w]))
            == FieldsAt(fields, path, r[p := w])
  {
    var rest := fields[1..];
    assert FieldsAt(fields, path, r)[1..] == FieldsAt(rest, path, r);
    PrefixStep(path, key, p);
    if fields[0].key == key {
      forall i | 0 <= i < |rest| ensures !(path + [rest[i].key] <= p) {
        if path + [rest[i].key] <= p {
          PrefixStep(path, rest[i].key, p);
          KeyFound(rest, i);
        }
      }
      FieldsElsewhere(rest, path, r, p, w);
    } else {
      SetFieldAt(rest, path, r, key, p, w);
      if path + [fields[0].key] <= p { PrefixStep(path, fields[0].key, p); }
      AtElsewhere(fields[0].value, path + [fields[0].key], r, p, w);
    }
  }

  lemma {:induction false} KeyFound(fields: seq<Field>, i: nat)
    requires i < |fields|
    ensures Lookup(fields, fields[i].key).Some?
  {
    if i > 0 {
      assert fields[1..][i - 1] == fields[i];
      KeyFound(fields[1..], i - 1);
    }
  }

  lemma ProperChild(v: Json, key: string)
    requires Proper(v) && v.Obj? && Lookup(v.fields, key).Some?
    ensures Proper(Lookup(v.fields, key).value) && Lookup(v.fields, key).value < v
  {
    LookupIsProper(v.fields, key);
    var i :| 0 <= i < |v.fields| && v.fields[i].key == key && v.fields[i].value == Lookup(v.fields, key).value;
    assert v.fields[i] < v;
  }

  /** Setting one more path of the original tree in a patched tree is one more replacement. */
  lemma {:induction false} PutAt(v: Json, path: Path, r: Patch, rest: Path, w: Json)
    requires Proper(v) && rest != [] && Get(v, rest).Some?
    requires ClearAbove(r, path, path + rest)
    ensures Put(Within(v, path, r), rest, w) == Some(Within(v, path, r[path + rest := w]))
    decreases v
  {
    var key, deeper := rest[0], rest[1..];
    var child := Lookup(v.fields, key).value;
    var p := path + rest;
    LookupAt(v.fields, path, r, key);
    SetFieldAt(v.fields, path, r, key, p, w);
    if deeper == [] {
      assert p == path + [key];
    } else {
      var down := path + [key];
      assert p == down + deeper;
      assert down < p;
      assert down !in r;
      ProperChild(v, key);
      ClearBelow(r, path, down, p);
      PutAt(child, down, r, deeper, w);
      assert down !in r[p := w];
    }
  }

  lemma ClearBelow(r: Patch, path: Path, down: Path, p: Path)
    requires ClearAbove(r, path, p) && path < down
    ensures ClearAbove(r, down, p)
  {
    assert forall q :: q in r && down <= q < p ==> path <= q;
  }

  /** Reading a path of the original tree in a patched tree: the replacement, or what was there with its own
      replacements. */
  lemma {:induction false} GetAt(v: Json, path: Path, r: Patch, rest: Path)
    requires Proper(v) && rest != [] && Get(v, rest).Some?
    requires ClearAbove(r, path, path + rest)
    ensures Get(Within(v, path, r), rest) == Some(At(Get(v, rest).value, path + rest, r))
    decreases v
  {
    var key, deeper := rest[0], rest[1..];
    LookupAt(v.fields, path, r, key);
    ProperChild(v, key);
    var down := path + [key];
    if deeper == [] {
      assert path + rest == down;
    } else {
      assert path + rest == down + deeper;
      assert down < path + rest;
      assert down !in r;
      ClearBelow(r, path, down, path + rest);
      GetAt(Lookup(v.fields, key).value, down, r, deeper);
    }
  }

  /** A path that does not exist in the original does not exist in a patched tree either, unless a replacement lies
      above it. */
  lemma {:induction false} GetMissing(v: Json, path: Path, r: Patch, rest: Path)
    requires rest != [] && Get(v, rest).None? && ClearAbove(r, path, path + rest)
    ensures Get(Within(v, path, r), rest).None?
    decreases |rest|
  {
    if v.Obj? && Lookup(v.fields, rest[0]).Some? {
      var key, deeper := rest[0], rest[1..];
      var down := path + [key];
      LookupAt(v.fields, path, r, key);
      assert path + rest == down + deeper;
      assert path < down < path + rest;
      assert down !in r;
      ClearBelow(r, path, down, path + rest);
      GetMissing(Lookup(v.fields, key).value, down, r, deeper);
    } else if v.Obj? {
      LookupAt(v.fields, path, r, rest[0]);
    }
  }

  /** What exists can be set. */
  lemma {:induction false} PutWorks(v: Json, path: Path, value: Json)
    requires path != [] && Get(v, path).Some?
    ensures Put(v, path, value).Some?
    decreases |path|
  {
    if |path| > 1 { PutWorks(Lookup(v.fields, path[0]).value, path[1..], value); }
  }

  /** Replacements below `path` that all put back what was there change nothing. */
  lemma {:induction false} AtUnchanged(v: Json, path: Path, r: Patch)
    requires Proper(v)
    requires forall q :: q in r && path < q && Get(v, q[|path|..]).Some? ==> Some(r[q]) == Get(v, q[|path|..])
    ensures Within(v, path, r) == v
    decreases v, 1
  {
    if v.Obj? { FieldsUnchanged(v, v.fields, path, r); }
  }

  lemma {:induction false} FieldsUnchanged(v: Json, fields: seq<Field>, path: Path, r: Patch)
    requires v.Obj? && Proper(v) && |fields| <= |v.fields| && fields == v.fields[|v.fields| - |fields|..]
    requires forall q :: q in r && path < q && Get(v, q[|path|..]).Some? ==> Some(r[q]) == Get(v, q[|path|..])
    ensures FieldsAt(fields, path, r) == fields
    decreases v, 0, fields
  {
    if fields != [] {
      var i := |v.fields| - |fields|;
      var key, child, down := fields[0].key, fields[0].value, path + [fields[0].key];
      assert v.fields[i] == fields[0] && v.fields[i] < v;
      LookupDistinct(v.fields, i);
      FieldsUnchanged(v, fields[1..], path, r);
      assert Get(v, [key]) == Some(child);
      if down in r { assert down[|path|..] == [key]; }
      forall q | q in r && down < q && Get(child, q[|down|..]).Some? ensures Some(r[q]) == Get(child, q[|down|..]) {
        assert q[|path|..][0] == key by { PrefixStep(path, key, q); }
        assert q[|path|..][1..] == q[|down|..];
        assert path < q;
      }
      AtUnchanged(child, down, r);
      assert [fields[0]] + fields[1..] == fields;
    }
  }

  lemma {:induction false} LookupDistinct(fields: seq<Field>, i: nat)
    requires DistinctKeys(fields) && i < |fields|
    ensures Lookup(fields, fields[i].key) == Some(fields[i].value)
  {
    if i > 0 {
      assert fields[1..][i - 1] == fields[i];
      LookupDistinct(fields[1..], i - 1);
      KeyFound(fields[1..], i - 1);
    }
  }
}
