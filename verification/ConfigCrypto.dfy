/** Encrypting named fields of a configuration and decrypting whatever is found encrypted. The cipher is abstract. */
module ConfigCrypto {
  import opened Basics
  import opened ConfigTree
  import opened Text

  // `seal` is what `openssl enc -a` writes for a random salt and a plain text; `open` is nothing when it fails.
  datatype Cipher = Cipher(seal: (string, string) -> string, open: string -> Option<string>)

  /** Base64 text: one final newline, no other whitespace at either end, and no carriage return. */
  ghost predicate Armoured(file: string) {
    exists body: string :: body != "" && !IsSpace(body[0]) && !IsSpace(body[|body| - 1]) && '\r' !in body
                           && file == body + "\n"
  }

  ghost predicate Works(c: Cipher) {
    forall salt, plain :: Armoured(c.seal(salt, plain)) && c.open(c.seal(salt, plain)) == Some(plain)
  }

  // ----- markers -------------------------------------------------------------------------------------------------

  const ENCRYPTED := "__encrypted__"

  function Marker(data: string): Json {
    Obj([Field(ENCRYPTED, Bool(true)), Field("cipher", Str("aes-256-cbc-pbkdf2")), Field("data", Str(data))])
  }

  predicate IsMarker(v: Json) { v.Obj? && Lookup(v.fields, ENCRYPTED) == Some(Bool(true)) }

  /** `find_encrypted_field_paths`; an empty prefix is no prefix. */
  function Find(fields: seq<Field>, prefix: string): seq<string>
    decreases fields
  {
    if fields == [] then []
    else
      var path := if prefix == "" then fields[0].key else prefix + "." + fields[0].key;
      (if IsMarker(fields[0].value) then [path]
       else if fields[0].value.Obj? then Find(fields[0].value.fields, path) else [])
      + Find(fields[1..], prefix)
  }

  // ----- encryption ----------------------------------------------------------------------------------------------

  // How one call of the tool ends: it fails, or succeeds with some salt.
  datatype Outcome = Failed | Sealed(salt: string)

  /** Python's `str` of a value; `show` for what is not text already. */
  function PlainText(v: Json, show: Json -> string): string { if v.Str? then v.text else show(v) }

  function SealedValue(c: Cipher, v: Json, show: Json -> string, salt: string): Json {
    Marker(Strip(Newlines(c.seal(salt, PlainText(v, show)))))
  }

  function EncryptStep(c: Cipher, show: Json -> string, config: Json, dotted: string, outcome: Outcome): Option<Json> {
    var path := Split(dotted, '.');
    var v := Get(config, path);
    if v.None? then None
    else if outcome.Failed? then Some(config)
    else Put(config, path, SealedValue(c, v.value, show, outcome.salt))
  }

  /** Nothing, when a named path does not exist. */
  function Encrypt(c: Cipher, show: Json -> string, config: Json, paths: seq<string>, outcomes: seq<Outcome>)
    : Option<Json>
    requires |outcomes| == |paths|
  {
    if paths == [] then Some(config)
    else
      var n := |paths| - 1;
      var before := Encrypt(c, show, config, paths[..n], outcomes[..n]);
      if before.None? then None else EncryptStep(c, show, before.value, paths[n], outcomes[n])
  }

  method EncryptJsonFields(c: Cipher, show: Json -> string, config: Json, paths: seq<string>, outcomes: seq<Outcome>)
    returns (result: Option<Json>)
    requires |outcomes| == |paths|
    ensures result == Encrypt(c, show, config, paths, outcomes)
  {
    var tree, k := config, 0;
    while k < |paths|
      invariant 0 <= k <= |paths| && Encrypt(c, show, config, paths[..k], outcomes[..k]) == Some(tree)
    {
      assert paths[..k + 1][..k] == paths[..k] && outcomes[..k + 1][..k] == outcomes[..k];
      var next := EncryptStep(c, show, tree, paths[k], outcomes[k]);
      if next.None? {
        EncryptFailsEarly(c, show, config, paths, outcomes, k + 1);
        return None;
      }
      tree, k := next.value, k + 1;
    }
    assert paths[..k] == paths && outcomes[..k] == outcomes;
    result := Some(tree);
  }

  lemma {:induction false} EncryptFailsEarly(c: Cipher, show: Json -> string, config: Json, paths: seq<string>,
                                             outcomes: seq<Outcome>, k: nat)
    requires k <= |paths| == |outcomes| && Encrypt(c, show, config, paths[..k], outcomes[..k]).None?
    ensures Encrypt(c, show, config, paths, outcomes).None?
  {
    if k == |paths| {
      assert paths[..k] == paths && outcomes[..k] == outcomes;
    } else {
      var n := |paths| - 1;
      assert paths[..n][..k] == paths[..k] && outcomes[..n][..k] == outcomes[..k];
      EncryptFailsEarly(c, show, config, paths[..n], outcomes[..n], k);
    }
  }

  // ----- decryption ----------------------------------------------------------------------------------------------

  datatype Opened = Opened(tree: Json, errors: seq<string>)

  /** The stored text with the final newline the tool insists on. */
  function Rearmed(data: string): string { if data != "" && data[|data| - 1] == '\n' then data else data + "\n" }

  /** One field; `broken` are the paths for which the tool fails whatever it is given. */
  function DecryptStep(c: Cipher, o: Opened, dotted: string, broken: set<string>): Option<Opened> {
    var path := Split(dotted, '.');
    var entry := Get(o.tree, path);
    if entry.None? || Get(entry.value, ["data"]).None? || !Get(entry.value, ["data"]).value.Str? then None
    else
      var plain := if dotted in broken then None else c.open(Rearmed(Get(entry.value, ["data"]).value.text));
      if plain.None? then Some(o.(errors := o.errors + [dotted]))
      else
        var tree := Put(o.tree, path, Str(Newlines(plain.value)));
        if tree.None? then None else Some(o.(tree := tree.value))
  }

  function DecryptEach(c: Cipher, o: Opened, paths: seq<string>, broken: set<string>): Option<Opened>
    decreases |paths|
  {
    if paths == [] then Some(o)
    else
      var next := DecryptStep(c, o, paths[0], broken);
      if next.None? then None else DecryptEach(c, next.value, paths[1..], broken)
  }

  function Decrypt(c: Cipher, config: Json, broken: set<string>): Option<Opened> {
    if !config.Obj? then None else DecryptEach(c, Opened(config, []), Find(config.fields, ""), broken)
  }

  method DecryptJsonFields(c: Cipher, config: Json, broken: set<string>) returns (result: Option<Opened>)
    ensures result == Decrypt(c, config, broken)
  {
    if !config.Obj? { return None; }
    var paths, o, k := Find(config.fields, ""), Opened(config, []), 0;
    while k < |paths|
      invariant 0 <= k <= |paths|
      invariant Decrypt(c, config, broken) == DecryptEach(c, o, paths[k..], broken)
    {
      assert paths[k..][1..] == paths[k + 1..];
      var next := DecryptStep(c, o, paths[k], broken);
      if next.None? { return None; }
      o, k := next.value, k + 1;
    }
    result := Some(o);
  }

  // ----- the cipher's own round trip -----------------------------------------------------------------------------

  lemma SealedOpens(c: Cipher, salt: string, plain: string)
    requires Works(c)
    ensures c.open(Rearmed(Strip(Newlines(c.seal(salt, plain))))) == Some(plain)
  {
    var file := c.seal(salt, plain);
    assert Armoured(file);
    var body: string :| body != "" && !IsSpace(body[0]) && !IsSpace(body[|body| - 1]) && '\r' !in body
                        && file == body + "\n";
    NewlinesKeep(file);
    assert file[0] == body[0];
    assert file[..|file| - 1] == body;
    assert StripRight(file) == StripRight(body) == body;
    assert Rearmed(body) == file;
  }
}
