/** Printing the configurator's settings as `smartd.conf`, reading that file back, and comparing. */
module Smartd {
  import opened Basics
  import opened Text

  datatype Key =
    HealthCheck | MonitorAll | AutoOffline | Autosave | Schedule | Email | Frequency | Unknown(name: string)

  // A setting as it comes out of the exported JSON; `Null` also stands for one that is missing.
  datatype Value = Flag(on: bool) | Str(text: string) | Null

  type Config = map<Key, Value>

  function Get(config: Config, key: Key): Value { if key in config then config[key] else Null }

  predicate Truthy(v: Value) { (v.Flag? && v.on) || (v.Str? && v.text != "") }

  // ----- printing ------------------------------------------------------------------------------------------------

  const BANNER := "# Generated by config_apply.py" + " - do not edit by hand"

  /** A truthy setting that is not text makes joining the parts raise. */
  predicate Joins(config: Config) {
    && (Truthy(Get(config, Schedule)) ==> Get(config, Schedule).Str?)
    && (Truthy(Get(config, Email)) ==> Get(config, Email).Str?)
    && (Truthy(Get(config, Email)) && Truthy(Get(config, Frequency)) ==> Get(config, Frequency).Str?)
  }

  predicate OnOff(v: Value) { v in {Str("on"), Str("off")} }

  function TextOf(v: Value): string { if v.Str? then v.text else "" }

  datatype Settings = Settings(health: bool, monitorAll: bool, offline: string, autosave: string, schedule: string,
                               email: string, frequency: string)

  /** What a config amounts to: only on and off survive as such, and a frequency only with an address. */
  function Normal(config: Config): Settings {
    Settings(Truthy(Get(config, HealthCheck)), Truthy(Get(config, MonitorAll)),
             if OnOff(Get(config, AutoOffline)) then Get(config, AutoOffline).text else "",
             if OnOff(Get(config, Autosave)) then Get(config, Autosave).text else "",
             TextOf(Get(config, Schedule)), TextOf(Get(config, Email)),
             if TextOf(Get(config, Email)) != "" then TextOf(Get(config, Frequency)) else "")
  }

  function FlagPart(option: string, on: bool): seq<string> { if on then [option] else [] }

  function TextPart(option: string, v: string): seq<string> { if v != "" then [option, v] else [] }

  // The parts from one setting on.
  function FromEmail(n: Settings): seq<string> { TextPart("-m", n.email) + TextPart("-M", n.frequency) }
  function FromSchedule(n: Settings): seq<string> { TextPart("-s", n.schedule) + FromEmail(n) }
  function FromAutosave(n: Settings): seq<string> { TextPart("-S", n.autosave) + FromSchedule(n) }
  function FromOffline(n: Settings): seq<string> { TextPart("-o", n.offline) + FromAutosave(n) }
  function FromAll(n: Settings): seq<string> { FlagPart("-a", n.monitorAll) + FromOffline(n) }
  function Parts(n: Settings): seq<string> { ["DEVICESCAN"] + (FlagPart("-H", n.health) + FromAll(n)) }

  function Build(config: Config): Option<string> {
    if Joins(config) then Some(Unlines([BANNER, Join(Parts(Normal(config)), ' ')])) else None
  }

  /** `build_smartd_conf`: the list of parts grows setting by setting. */
  method BuildSmartdConf(config: Config) returns (text: Option<string>)
    ensures text == Build(config)
  {
    if !Joins(config) { return None; }
    ghost var n := Normal(config);
    var parts := ["DEVICESCAN"];
    parts := AddFlag(parts, "-H", Get(config, HealthCheck), FromAll(n));
    parts := AddFlag(parts, "-a", Get(config, MonitorAll), FromOffline(n));
    parts := AddText(parts, "-o", if OnOff(Get(config, AutoOffline)) then Get(config, AutoOffline) else Null,
                     FromAutosave(n));
    parts := AddText(parts, "-S", if OnOff(Get(config, Autosave)) then Get(config, Autosave) else Null,
                     FromSchedule(n));
    parts := AddText(parts, "-s", Get(config, Schedule), FromEmail(n));
    if Truthy(Get(config, Email)) {
      parts := AddText(parts, "-m", Get(config, Email), TextPart("-M", n.frequency));
      parts := AddText(parts, "-M", Get(config, Frequency), []);
    }
    assert parts + [] == parts && [] + [] == FromEmail(Settings(false, false, "", "", "", "", ""));
    assert parts == Parts(n);
    text := Some(Unlines([BANNER, Join(parts, ' ')]));
  }

  /** Appends an option that is switched on; `rest` is what will follow. */
  method AddFlag(parts: seq<string>, option: string, v: Value, ghost rest: seq<string>) returns (r: seq<string>)
    ensures r == parts + FlagPart(option, Truthy(v))
    ensures r + rest == parts + (FlagPart(option, Truthy(v)) + rest)
  {
    r := parts;
    if Truthy(v) { r := r + [option]; }
  }

  /** Appends an option and its value, if there is one. */
  method AddText(parts: seq<string>, option: string, v: Value, ghost rest: seq<string>) returns (r: seq<string>)
    requires Truthy(v) ==> v.Str?
    ensures r == parts + TextPart(option, TextOf(v))
    ensures r + rest == parts + (TextPart(option, TextOf(v)) + rest)
  {
    r := parts;
    if Truthy(v) { r := r + [option, v.text]; }
  }

  // ----- reading back --------------------------------------------------------------------------------------------

  const DEFAULTS := Settings(false, false, "", "", "", "", "")

  /** An option followed by its value. */
  predicate TakesValue(t: string) { t in {"-o", "-S", "-s", "-m", "-M"} }

  function WithFlag(c: Settings, t: string): Settings {
    if t == "-H" then c.(health := true) else if t == "-a" then c.(monitorAll := true) else c
  }

  function WithValue(c: Settings, t: string, v: string): Settings {
    if t == "-o" then c.(offline := v)
    else if t == "-S" then c.(autosave := v)
    else if t == "-s" then c.(schedule := v)
    else if t == "-m" then c.(email := v)
    else c.(frequency := v)
  }

  /** What the tokens add to `c`. */
  function Scan(tokens: seq<string>, c: Settings): Settings
    decreases |tokens|
  {
    if tokens == [] then c
    else if TakesValue(tokens[0]) && |tokens| > 1 then Scan(tokens[2..], WithValue(c, tokens[0], tokens[1]))
    else Scan(tokens[1..], WithFlag(c, tokens[0]))
  }

  predicate IsScanLine(line: string) { "DEVICESCAN" <= Strip(line) }

  function ScanLine(lines: seq<string>): string {
    if lines == [] then "" else if IsScanLine(lines[0]) then lines[0] else ScanLine(lines[1..])
  }

  function ReadBack(content: Option<string>): Settings {
    if content.None? then DEFAULTS else Scan(Words(ScanLine(Lines(content.value))), DEFAULTS)
  }

  /** `read_current_smartd_config`: a cursor over the tokens of the first DEVICESCAN line. */
  method ReadCurrentSmartdConfig(content: Option<string>) returns (current: Settings)
    ensures current == ReadBack(content)
  {
    current := DEFAULTS;
    if content.None? { return; }
    var tokens, i := Words(ScanLine(Lines(content.value))), 0;
    while i < |tokens|
      invariant 0 <= i <= |tokens|
      invariant Scan(tokens, DEFAULTS) == Scan(tokens[i..], current)
    {
      var t := tokens[i];
      assert tokens[i..][1..] == tokens[i + 1..];
      if t == "-H" {
        current := current.(health := true);
      } else if t == "-a" {
        current := current.(monitorAll := true);
      } else if TakesValue(t) && i + 1 < |tokens| {
        assert tokens[i..][2..] == tokens[i + 2..];
        current := WithValue(current, t, tokens[i + 1]);
        i := i + 1;
      }
      i := i + 1;
    }
  }

  // ----- the normal form -----------------------------------------------------------------------------------------

  function AsConfig(c: Settings): Config {
    map[HealthCheck := Flag(c.health), MonitorAll := Flag(c.monitorAll), AutoOffline := Str(c.offline),
        Autosave := Str(c.autosave), Schedule := Str(c.schedule), Email := Str(c.email),
        Frequency := Str(c.frequency)]
  }

  /** The values that reach the file hold no whitespace. */
  predicate Clean(c: Settings) { SpaceFree(c.schedule) && SpaceFree(c.email) && SpaceFree(c.frequency) }

  lemma NormalIsIdempotent(config: Config)
    ensures Normal(AsConfig(Normal(config))) == Normal(config)
  {
    var n := Normal(config);
    assert |"on"| == 2 && |"off"| == 3;
    assert OnOff(Str(n.offline)) <==> n.offline != "";
    assert OnOff(Str(n.autosave)) <==> n.autosave != "";
    var c := AsConfig(n);
    assert Get(c, Email) == Str(n.email) && Get(c, Frequency) == Str(n.frequency);
  }

  // ----- the round trip ------------------------------------------------------------------------------------------

  lemma ScanFlag(option: string, on: bool, rest: seq<string>, c: Settings)
    requires option in {"-H", "-a"}
    ensures Scan(FlagPart(option, on) + rest, c) == Scan(rest, if on then WithFlag(c, option) else c)
  {
    if on { assert ([option] + rest)[1..] == rest; } else { assert [] + rest == rest; }
  }

  lemma ScanValue(option: string, v: string, rest: seq<string>, c: Settings)
    requires TakesValue(option)
    ensures Scan(TextPart(option, v) + rest, c) == Scan(rest, if v == "" then c else WithValue(c, option, v))
  {
    if v == "" { assert [] + rest == rest; } else { assert ([option, v] + rest)[2..] == rest; }
  }

  /** A value is read back even when it looks like an option, because it is taken with the option before it. */
  lemma PartsScan(n: Settings)
    ensures Scan(Parts(n), DEFAULTS) == n
  {
    var rest := FlagPart("-H", n.health) + FromAll(n);
    assert (["DEVICESCAN"] + rest)[1..] == rest;
    var c := DEFAULTS;
    ScanFlag("-H", n.health, FromAll(n), c);
    c := c.(health := n.health);
    ScanFlag("-a", n.monitorAll, FromOffline(n), c);
    c := c.(monitorAll := n.monitorAll);
    ValuesScan(n, c);
  }

  lemma ValuesScan(n: Settings, c0: Settings)
    requires c0 == DEFAULTS.(health := n.health, monitorAll := n.monitorAll)
    ensures Scan(FromOffline(n), c0) == n
  {
    var c := c0;
    ScanValue("-o", n.offline, FromAutosave(n), c);
    c := c.(offline := n.offline);
    ScanValue("-S", n.autosave, FromSchedule(n), c);
    c := c.(autosave := n.autosave);
    ScanValue("-s", n.schedule, FromEmail(n), c);
    EmailScan(n, c.(schedule := n.schedule));
  }

  lemma EmailScan(n: Settings, c0: Settings)
    requires c0 == n.(email := "", frequency := "")
    ensures Scan(FromEmail(n), c0) == n
  {
    var c := c0;
    ScanValue("-m", n.email, TextPart("-M", n.frequency), c);
    c := c.(email := n.email);
    ScanValue("-M", n.frequency, [], c);
    assert TextPart("-M", n.frequency) + [] == TextPart("-M", n.frequency);
  }

  predicate Tokens(xs: seq<string>) { forall x :: x in xs ==> x != [] && SpaceFree(x) }

  lemma TokensTogether(a: seq<string>, b: seq<string>)
    requires Tokens(a) && Tokens(b)
    ensures Tokens(a + b)
  {
  }

  lemma CleanParts(n: Settings)
    requires Clean(n) && SpaceFree(n.offline) && SpaceFree(n.autosave)
    ensures Tokens(Parts(n))
  {
    TokensTogether(TextPart("-m", n.email), TextPart("-M", n.frequency));
    TokensTogether(TextPart("-s", n.schedule), FromEmail(n));
    TokensTogether(TextPart("-S", n.autosave), FromSchedule(n));
    TokensTogether(TextPart("-o", n.offline), FromAutosave(n));
    TokensTogether(FlagPart("-a", n.monitorAll), FromOffline(n));
    TokensTogether(FlagPart("-H", n.health), FromAll(n));
    TokensTogether(["DEVICESCAN"], FlagPart("-H", n.health) + FromAll(n));
  }

  lemma {:induction false} JoinStarts(xs: seq<string>)
    requires xs != []
    ensures xs[0] <= Join(xs, ' ')
  {
  }

  lemma {:induction false} StripKeepsPrefix(s: string, prefix: string)
    requires prefix <= s && prefix != "" && SpaceFree(prefix)
    ensures prefix <= Strip(s)
  {
    assert s[0] == prefix[0];
    StripRightKeepsPrefix(s, prefix);
  }

  lemma {:induction false} StripRightKeepsPrefix(s: string, prefix: string)
    requires prefix <= s && prefix != "" && SpaceFree(prefix)
    ensures prefix <= StripRight(s)
  {
    if IsSpace(s[|s| - 1]) {
      assert !IsSpace(s[..|prefix|][|prefix| - 1]);
      StripRightKeepsPrefix(s[..|s| - 1], prefix);
    }
  }

  lemma {:induction false} JoinBreakFree(xs: seq<string>)
    requires forall x :: x in xs ==> SpaceFree(x)
    ensures BreakFree(Join(xs, ' '))
  {
    if |xs| == 1 {
      assert xs[0] in xs;
    } else if |xs| > 1 {
      assert xs[0] in xs;
      assert forall x :: x in xs[1..] ==> x in xs;
      JoinBreakFree(xs[1..]);
    }
  }

  lemma CleanRoundTrip(config: Config)
    requires Joins(config) && Clean(Normal(config))
    ensures ReadBack(Build(config)) == Normal(config)
  {
    var n := Normal(config);
    CleanParts(n);
    PartsScan(n);
    FileReadsBack(Parts(n));
  }

  lemma FileReadsBack(parts: seq<string>)
    requires Tokens(parts) && parts != [] && parts[0] == "DEVICESCAN"
    ensures ReadBack(Some(Unlines([BANNER, Join(parts, ' ')]))) == Scan(parts, DEFAULTS)
  {
    LinesOfFile(parts);
    WordsJoin(parts);
  }

  lemma LinesOfFile(parts: seq<string>)
    requires Tokens(parts) && parts != [] && parts[0] == "DEVICESCAN"
    ensures ScanLine(Lines(Unlines([BANNER, Join(parts, ' ')]))) == Join(parts, ' ')
  {
    var line := Join(parts, ' ');
    JoinBreakFree(parts);
    BannerIsOneLine();
    LinesUnlines([BANNER, line]);
    JoinStarts(parts);
    StripKeepsPrefix(line, "DEVICESCAN");
    BannerIsNoScanLine();
    assert [BANNER, line][1..] == [line];
  }

  lemma BannerIsOneLine()
    ensures BreakFree(BANNER)
  {
    assert BreakFree("# Generated by config_apply.py");
    assert BreakFree(" - do not edit by hand");
  }

  lemma BannerIsNoScanLine()
    ensures !IsScanLine(BANNER)
  {
    var banner := BANNER;
    assert "# Generated by config_apply.py"[0] == '#';
    assert banner[0] == '#';
    StripRightKeepsFirst(banner);
    assert "DEVICESCAN"[0] == 'D';
  }

  // ----- and its limits ------------------------------------------------------------------------------------------

  lemma {:induction false} WordsAreSpaceFree(s: string)
    ensures forall w :: w in Words(s) ==> SpaceFree(w)
  {
    if s == [] || IsSpace(s[0]) {
      if s != [] { WordsAreSpaceFree(s[1..]); }
      return;
    }
    var rest := Words(s[1..]);
    WordsAreSpaceFree(s[1..]);
    forall w | w in Words(s) ensures SpaceFree(w) {
      if w !in rest && |s| > 1 && !IsSpace(s[1]) {
        assert rest[0] in rest;
        assert w == [s[0]] + rest[0];
      }
    }
  }

  lemma {:induction false} ScanTakesTokens(tokens: seq<string>, c: Settings)
    requires Clean(c) && forall t :: t in tokens ==> SpaceFree(t)
    ensures Clean(Scan(tokens, c))
    decreases |tokens|
  {
    if tokens == [] { return; }
    if TakesValue(tokens[0]) && |tokens| > 1 {
      assert tokens[1] in tokens;
      assert forall t :: t in tokens[2..] ==> t in tokens;
      ScanTakesTokens(tokens[2..], WithValue(c, tokens[0], tokens[1]));
    } else {
      assert forall t :: t in tokens[1..] ==> t in tokens;
      ScanTakesTokens(tokens[1..], WithFlag(c, tokens[0]));
    }
  }

  /** Reading the built file back gives the normal form exactly when no value that reaches it holds whitespace. */
  lemma RoundTripExactly(config: Config)
    requires Joins(config)
    ensures ReadBack(Build(config)) == Normal(config) <==> Clean(Normal(config))
  {
    if Clean(Normal(config)) {
      CleanRoundTrip(config);
    } else {
      var tokens := Words(ScanLine(Lines(Build(config).value)));
      WordsAreSpaceFree(ScanLine(Lines(Build(config).value)));
      ScanTakesTokens(tokens, DEFAULTS);
    }
  }

  // ----- what reaches the file -----------------------------------------------------------------------------------

  /** A setting that is text, and what it says; nothing for one that is missing or no text. */
  function Says(config: Config, key: Key): string {
    if key in config && config[key].Str? then config[key].text else ""
  }

  predicate Switched(config: Config, key: Key) {
    key in config && (config[key] == Flag(true) || (config[key].Str? && config[key].text != ""))
  }

  /** The file can be built unless a schedule, an address, or a frequency next to an address, is just true. */
  lemma BuildsExactly(config: Config)
    ensures Build(config).Some? <==>
              && !(Schedule in config && config[Schedule] == Flag(true))
              && !(Email in config && config[Email] == Flag(true))
              && !(Switched(config, Email) && Frequency in config && config[Frequency] == Flag(true))
  {
  }

  /** Built and read again, the file holds both flags as they are switched, `on` and `off` and nothing else for the two
      modes, the schedule and the address as they are, and the frequency if there is an address. */
  lemma SettingsReachTheFile(config: Config)
    requires Build(config).Some?
    requires SpaceFree(Says(config, Schedule)) && SpaceFree(Says(config, Email)) && SpaceFree(Says(config, Frequency))
    ensures var r := ReadBack(Build(config));
            && (r.health <==> Switched(config, HealthCheck))
            && (r.monitorAll <==> Switched(config, MonitorAll))
            && r.offline == (if Says(config, AutoOffline) in {"on", "off"} then Says(config, AutoOffline) else "")
            && r.autosave == (if Says(config, Autosave) in {"on", "off"} then Says(config, Autosave) else "")
            && r.schedule == Says(config, Schedule)
            && r.email == Says(config, Email)
            && r.frequency == (if Says(config, Email) != "" then Says(config, Frequency) else "")
  {
    RoundTripExactly(config);
  }

  /** With everything set, the line names the options in this order. */
  lemma FullLine(schedule: string, email: string, frequency: string)
    requires schedule != "" && email != "" && frequency != ""
    ensures Parts(Settings(true, true, "on", "off", schedule, email, frequency))
            == ["DEVICESCAN", "-H", "-a", "-o", "on", "-S", "off", "-s", schedule, "-m", email, "-M", frequency]
  {
  }

  // ----- differences ---------------------------------------------------------------------------------------------

  datatype Difference = Difference(key: Key, current: Value, desired: Value, changed: bool)

  /** `diff_config`: a row for every desired setting, in their order. */
  method DiffConfig(current: Config, desired: seq<(Key, Value)>) returns (rows: seq<Difference>)
    ensures |rows| == |desired|
    ensures forall i :: 0 <= i < |rows| ==>
              rows[i] == Difference(desired[i].0, Get(current, desired[i].0), desired[i].1,
                                    Get(current, desired[i].0) != desired[i].1)
  {
    rows := [];
    for k := 0 to |desired|
      invariant |rows| == k
      invariant forall i :: 0 <= i < k ==>
                  rows[i] == Difference(desired[i].0, Get(current, desired[i].0), desired[i].1,
                                        Get(current, desired[i].0) != desired[i].1)
    {
      var (key, value) := desired[k];
      rows := rows + [Difference(key, Get(current, key), value, Get(current, key) != value)];
    }
  }

  /** The settings of a config, listed in any order. */
  predicate Lists(items: seq<(Key, Value)>, config: Config) {
    && (forall i :: 0 <= i < |items| ==> items[i].0 in config && config[items[i].0] == items[i].1)
    && (forall key :: key in config ==> (key, config[key]) in items)
  }

  /** Applying a config and comparing at once finds no change exactly when every setting it lists is in normal form:
      in particular never for a config that is a normal form itself. */
  method ApplyThenDiff(config: Config, items: seq<(Key, Value)>) returns (rows: seq<Difference>)
    requires Joins(config) && Clean(Normal(config)) && Lists(items, config)
    ensures (forall i :: 0 <= i < |rows| ==> !rows[i].changed)
            <==> forall key :: key in config ==> Get(AsConfig(Normal(config)), key) == config[key]
    ensures config == AsConfig(Normal(config)) ==> forall i :: 0 <= i < |rows| ==> !rows[i].changed
  {
    var text := BuildSmartdConf(config);
    var current := ReadCurrentSmartdConfig(text);
    CleanRoundTrip(config);
    rows := DiffConfig(AsConfig(current), items);
    if forall i :: 0 <= i < |rows| ==> !rows[i].changed {
      forall key | key in config ensures Get(AsConfig(current), key) == config[key] {
        var i :| 0 <= i < |items| && items[i] == (key, config[key]);
        assert !rows[i].changed;
      }
    }
  }
}
