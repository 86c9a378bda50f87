/** Reading a drive from `lsblk`, and the verdicts that protect a drive that holds data. */
module DriveGuard {
  import opened Basics
  import opened Text

  // What is really on a drive: a file system on the whole disk, a disk GUID ("" for none), and everything below it.
  datatype Child = Child(name: string, kind: string, fstype: string, tag: string)
  datatype Drive = Drive(name: string, fstype: string, guid: string, children: seq<Child>)

  // One row of `lsblk -nr -o NAME,TYPE,FSTYPE,PTUUID,LABEL`.
  datatype Row = Row(name: string, kind: string, fstype: string, guid: string, tag: string)

  datatype DriveState = DriveState(known: bool, hasData: bool, guid: Option<string>, labels: seq<string>,
                                   fstypes: seq<string>)
  const UNKNOWN := DriveState(false, true, None, [], [])

  // ----- reading -------------------------------------------------------------------------------------------------

  function FieldAt(fields: seq<string>, i: nat): string { if i < |fields| then fields[i] else "" }

  function RowOf(line: string): Option<Row> {
    var fields := Split(line, ' ');
    if |fields| < 2 then None
    else Some(Row(fields[0], fields[1], FieldAt(fields, 2), FieldAt(fields, 3), FieldAt(fields, 4)))
  }

  /** The rows of a report, or nothing when some line is not a row; blank lines do not matter. */
  function RowsOf(lines: seq<string>): Option<seq<Row>> {
    if lines == [] then Some([])
    else if Strip(lines[0]) == "" then RowsOf(lines[1..])
    else
      var first := RowOf(lines[0]);
      if first.None? then None else After([first.value], RowsOf(lines[1..]))
  }

  function Disks(rows: seq<Row>): seq<Row> {
    if rows == [] then [] else (if rows[0].kind == "disk" then [rows[0]] else []) + Disks(rows[1..])
  }

  function Others(rows: seq<Row>): seq<Row> {
    if rows == [] then [] else (if rows[0].kind != "disk" then [rows[0]] else []) + Others(rows[1..])
  }

  function Labels(rows: seq<Row>): seq<string> {
    if rows == [] then [] else (if rows[0].kind == "part" then [Strip(rows[0].tag)] else []) + Labels(rows[1..])
  }

  function Fstypes(rows: seq<Row>): seq<string> {
    if rows == [] then [] else (if rows[0].kind == "part" then [Strip(rows[0].fstype)] else []) + Fstypes(rows[1..])
  }

  function StateOf(rows: seq<Row>): DriveState {
    if |Disks(rows)| != 1 then UNKNOWN
    else
      var disk, others := Disks(rows)[0], Others(rows);
      DriveState(true, Strip(disk.fstype) != "" || others != [],
                 if Strip(disk.guid) == "" then None else Some(Strip(disk.guid)), Labels(others), Fstypes(others))
  }

  function ReadOf(output: Option<string>): DriveState {
    if output.None? then UNKNOWN
    else if RowsOf(Lines(output.value)).None? then UNKNOWN
    else StateOf(RowsOf(Lines(output.value)).value)
  }

  function After(rows: seq<Row>, rest: Option<seq<Row>>): Option<seq<Row>> {
    if rest.None? then None else Some(rows + rest.value)
  }

  lemma AfterNothing(rows: seq<Row>, rest: Option<seq<Row>>)
    ensures After([], rest) == rest && After(rows, Some([])) == Some(rows)
  {
    assert rows + [] == rows;
    if rest.Some? { assert [] + rest.value == rest.value; }
  }

  lemma AfterAfter(rows: seq<Row>, row: Row, rest: Option<seq<Row>>)
    ensures After(rows, After([row], rest)) == After(rows + [row], rest)
  {
    if rest.Some? { assert rows + ([row] + rest.value) == rows + [row] + rest.value; }
  }

  /** Reads `lsblk`'s output; none at all, when the command failed. */
  method ReadDriveState(output: Option<string>) returns (state: DriveState)
    ensures state == ReadOf(output)
  {
    if output.None? { return UNKNOWN; }
    var lines := Lines(output.value);
    var rows, k := [], 0;
    assert lines[0..] == lines;
    AfterNothing([], RowsOf(lines));
    while k < |lines|
      invariant 0 <= k <= |lines|
      invariant RowsOf(lines) == After(rows, RowsOf(lines[k..]))
    {
      assert lines[k..][1..] == lines[k + 1..];
      if Strip(lines[k]) != "" {
        var row := RowOf(lines[k]);
        if row.None? { return UNKNOWN; }
        AfterAfter(rows, row.value, RowsOf(lines[k + 1..]));
        rows := rows + [row.value];
      }
      k := k + 1;
    }
    AfterNothing(rows, None);
    state := StateOf(rows);
  }

  // ----- what a truthful report reads back as --------------------------------------------------------------------

  function DriveLabels(children: seq<Child>): seq<string> {
    if children == [] then []
    else (if children[0].kind == "part" then [children[0].tag] else []) + DriveLabels(children[1..])
  }

  function DriveFstypes(children: seq<Child>): seq<string> {
    if children == [] then []
    else (if children[0].kind == "part" then [children[0].fstype] else []) + DriveFstypes(children[1..])
  }

  predicate Empty(d: Drive) { d.fstype == "" && d.children == [] }

  /** The state of a drive as it really is. */
  function Seen(d: Drive): DriveState {
    DriveState(true, !Empty(d), if d.guid == "" then None else Some(d.guid), DriveLabels(d.children),
               DriveFstypes(d.children))
  }

  function Columns(r: Row): seq<string> { [r.name, r.kind, r.fstype, r.guid, r.tag] }

  /** A line showing a row; columns that are empty may be left off at the end. */
  predicate Shows(line: string, r: Row) {
    exists k | 2 <= k <= 5 :: line == Join(Columns(r)[..k], ' ') && forall i :: k <= i < 5 ==> Columns(r)[i] == ""
  }

  // `lsblk -r` escapes whitespace inside values.
  predicate Escaped(r: Row) { r.name != "" && forall i :: 0 <= i < 5 ==> SpaceFree(Columns(r)[i]) }

  function DriveRows(d: Drive): seq<Row> {
    [Row(d.name, "disk", d.fstype, d.guid, "")]
    + seq(|d.children|, i requires 0 <= i < |d.children| =>
            Row(d.children[i].name, d.children[i].kind, d.children[i].fstype, d.guid, d.children[i].tag))
  }

  lemma JoinStartsWith(xs: seq<string>)
    requires xs != [] && xs[0] != ""
    ensures Join(xs, ' ') != "" && Join(xs, ' ')[0] == xs[0][0]
  {
  }

  lemma ShownRowReadsBack(line: string, r: Row)
    requires Escaped(r) && Shows(line, r)
    ensures Strip(line) != "" && RowOf(line) == Some(r)
  {
    var k :| 2 <= k <= 5 && line == Join(Columns(r)[..k], ' ') && forall i :: k <= i < 5 ==> Columns(r)[i] == "";
    var shown := Columns(r)[..k];
    forall x | x in shown ensures ' ' !in x {
      var i :| 0 <= i < k && shown[i] == x;
      assert SpaceFree(Columns(r)[i]);
    }
    SplitJoin(shown, ' ');
    assert SpaceFree(Columns(r)[0]);
    JoinStartsWith(shown);
    StripRightKeepsFirst(line);
    forall i | 0 <= i < 5 ensures FieldAt(shown, i) == Columns(r)[i] { }
  }

  lemma {:induction false} ShownRowsReadBack(lines: seq<string>, rows: seq<Row>)
    requires |lines| == |rows| && forall i :: 0 <= i < |rows| ==> Escaped(rows[i]) && Shows(lines[i], rows[i])
    ensures RowsOf(lines) == Some(rows)
  {
    if rows != [] {
      ShownRowReadsBack(lines[0], rows[0]);
      ShownRowsReadBack(lines[1..], rows[1..]);
      assert [rows[0]] + rows[1..] == rows;
    }
  }

  lemma {:induction false} ChildRows(rows: seq<Row>, children: seq<Child>)
    requires |rows| == |children|
    requires forall i :: 0 <= i < |rows| ==> Escaped(rows[i]) && rows[i].kind == children[i].kind != "disk"
    requires forall i :: 0 <= i < |rows| ==> rows[i].fstype == children[i].fstype && rows[i].tag == children[i].tag
    ensures Disks(rows) == [] && Others(rows) == rows
    ensures Labels(rows) == DriveLabels(children) && Fstypes(rows) == DriveFstypes(children)
  {
    if rows != [] {
      ChildRows(rows[1..], children[1..]);
      assert Columns(rows[0])[2] == rows[0].fstype && Columns(rows[0])[4] == rows[0].tag;
      StripSpaceFree(rows[0].fstype);
      StripSpaceFree(rows[0].tag);
    }
  }

  lemma RowsJudged(d: Drive, disk: Row, rest: seq<Row>)
    requires disk == Row(d.name, "disk", d.fstype, d.guid, "") && Escaped(disk)
    requires Disks(rest) == [] && Others(rest) == rest && |rest| == |d.children|
    requires Labels(rest) == DriveLabels(d.children) && Fstypes(rest) == DriveFstypes(d.children)
    ensures StateOf([disk] + rest) == Seen(d)
  {
    assert Columns(disk)[2] == d.fstype && Columns(disk)[3] == d.guid;
    StripSpaceFree(d.fstype);
    StripSpaceFree(d.guid);
    assert ([disk] + rest)[1..] == rest;
    assert Disks([disk] + rest) == [disk];
    assert Others([disk] + rest) == rest;
  }

  /** A truthful report is read back as the drive really is, whatever is on it. */
  lemma TruthfulReport(d: Drive, lines: seq<string>)
    requires forall i :: 0 <= i < |d.children| ==> d.children[i].kind != "disk"
    requires |lines| == |DriveRows(d)|
    requires forall i :: 0 <= i < |lines| ==> Escaped(DriveRows(d)[i]) && BreakFree(lines[i])
                                              && Shows(lines[i], DriveRows(d)[i])
    ensures ReadOf(Some(Unlines(lines))) == Seen(d)
  {
    LinesUnlines(lines);
    ShownRowsReadBack(lines, DriveRows(d));
    var disk, rest := DriveRows(d)[0], DriveRows(d)[1..];
    forall i | 0 <= i < |rest| ensures rest[i] == DriveRows(d)[i + 1] { }
    ChildRows(rest, d.children);
    assert DriveRows(d) == [disk] + rest;
    RowsJudged(d, disk, rest);
  }

  // ----- verdicts ------------------------------------------------------------------------------------------------

  predicate TagChar(c: char) { 'A' <= c <= 'Z' || '0' <= c <= '9' || c == '_' }

  predicate Tagged(prefix: string, s: string) {
    prefix < s && forall i :: |prefix| <= i < |s| ==> TagChar(s[i])
  }

  predicate IsOwnLabel(s: string) {
    || s in {"BASELINE", "INSTALLER_CACHE", "SESSION_TEMP", "SUBSTRATE", "SUBSTRATE_PERSISTENCE", "USER"}
    || Tagged("USER_", s) || Tagged("APPDATA_", s)
  }

  /** Known to hold nothing, or nothing but labels that Baseline writes. */
  predicate IsBaselineOnly(state: DriveState) {
    && state.known
    && (!state.hasData || (state.labels != [] && forall i :: 0 <= i < |state.labels| ==> IsOwnLabel(state.labels[i])))
  }

  predicate HexChar(c: char) { '0' <= c <= '9' || 'a' <= c <= 'f' }

  predicate GuidShaped(g: string) {
    |g| == 36 && forall i :: 0 <= i < 36 ==> if i in {8, 13, 18, 23} then g[i] == '-' else HexChar(g[i])
  }

  function Normal(guid: string): string { Lower(Strip(guid)) }

  predicate IsInstallerGuid(registry: set<string>, guid: string) {
    GuidShaped(Normal(guid)) && Normal(guid) in registry
  }

  /** A drive may be formatted that was read and is blank, or carries a registered GUID. */
  predicate MayFormat(state: DriveState, registry: set<string>) {
    !state.hasData || (state.known && state.guid.Some? && IsInstallerGuid(registry, state.guid.value))
  }
}
