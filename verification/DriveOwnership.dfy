/** Whose drive it is, in terms of the volumes Baseline lays out: which labels are its own, and which drives it may
    therefore adopt or erase. */
module DriveOwnership {
  import opened Basics
  import opened DriveGuard
  import opened DriveProtocol
  import opened DriveSafety
  import opened Text
  import L = DriveLayout
  import V = VolumeNames

  // ----- labels --------------------------------------------------------------------------------------------------

  /** Capital letters, digits and underscores, at least one. */
  predicate PlainName(s: string) {
    s != "" && forall c :: c in s ==> 'A' <= c <= 'Z' || '0' <= c <= '9' || c == '_'
  }

  /** The name of a shared volume, or of a persona's own volume or application data. */
  predicate CurrentName(s: string) {
    || (exists k :: 0 <= k < |L.SHARED| && s == L.SHARED[k].name)
    || s == "USER"
    || ("USER_" <= s && PlainName(s[5..]))
    || ("APPDATA_" <= s && PlainName(s[8..]))
  }

  /** A name that Baseline gives its volumes, or gave them before they were renamed. */
  predicate VolumeName(s: string) { CurrentName(s) || CurrentName(V.Canonical(s)) }

  lemma TaggedExactly(prefix: string, s: string)
    ensures Tagged(prefix, s) <==> prefix <= s && PlainName(s[|prefix|..])
  {
    if prefix <= s {
      var rest := s[|prefix|..];
      assert s == prefix + rest;
      if Tagged(prefix, s) {
        forall c | c in rest ensures 'A' <= c <= 'Z' || '0' <= c <= '9' || c == '_' {
          var i :| 0 <= i < |rest| && rest[i] == c;
          assert s[|prefix| + i] == c;
        }
      }
      if PlainName(rest) {
        forall i | |prefix| <= i < |s| ensures TagChar(s[i]) { assert s[i] == rest[i - |prefix|] && s[i] in rest; }
      }
    }
  }

  lemma CurrentExactly(s: string)
    ensures CurrentName(s) <==> s in {"BASELINE", "INSTALLER_CACHE", "SESSION_TEMP", "SUBSTRATE", "USER"}
                                || Tagged("USER_", s) || Tagged("APPDATA_", s)
  {
    TaggedExactly("USER_", s);
    TaggedExactly("APPDATA_", s);
    assert L.SHARED[0].name == "BASELINE" && L.SHARED[1].name == "INSTALLER_CACHE";
    assert L.SHARED[2].name == "SESSION_TEMP" && L.SHARED[3].name == "SUBSTRATE";
  }

  lemma LowerCaseIsNoName(s: string)
    ensures s != "" && s[0] == 'b' ==> !CurrentName(s)
  {
    CurrentExactly(s);
  }

  /** The three kinds of old names. */
  lemma OldKinds(s: string)
    requires V.Canonical(s) != s
    ensures || s in {"SUBSTRATE_PERSISTENCE", "USER_PERSISTENCE"}
            || (V.OLD_LABEL <= s && V.Canonical(s) == V.NEW_LABEL + s[|V.OLD_LABEL|..])
            || (V.Canonical(s) != "" && V.Canonical(s)[0] == 'b')
  {
    V.Lengths();
    if s in V.RENAMED {
      assert s in {"SUBSTRATE_PERSISTENCE", "USER_PERSISTENCE", "baseline_substrate_persistence",
                   "baseline_user_persistence"};
      assert V.RENAMED["baseline_user_persistence"][0] == 'b' && V.RENAMED["baseline_substrate_persistence"][0] == 'b';
    }
  }

  /** What an old name turns into is recognised anyway, but for the one shared volume that was renamed. */
  lemma OldNames(s: string)
    requires V.Canonical(s) != s && CurrentName(V.Canonical(s))
    ensures s == "SUBSTRATE_PERSISTENCE" || Tagged("USER_", s)
  {
    OldKinds(s);
    LowerCaseIsNoName(V.Canonical(s));
    if s == "USER_PERSISTENCE" {
      assert "USER_PERSISTENCE"[..5] == "USER_";
    } else if s != "SUBSTRATE_PERSISTENCE" {
      OldUserIsCurrent(s[|V.OLD_LABEL|..]);
      OldUserName(s);
    }
  }

  lemma OldUserIsCurrent(rest: string)
    requires CurrentName(V.NEW_LABEL + rest)
    ensures Tagged("USER_", V.NEW_LABEL + rest)
  {
    var s := V.NEW_LABEL + rest;
    CurrentExactly(s);
    assert s[0] == 'U' && |s| >= 5 && s[4] == '_';
    assert |"USER"| == 4 && "APPDATA_"[0] == 'A';
  }

  lemma OldUserName(s: string)
    requires V.OLD_LABEL <= s && Tagged("USER_", V.NEW_LABEL + s[|V.OLD_LABEL|..])
    ensures Tagged("USER_", s)
  {
    V.Lengths();
    var now := V.NEW_LABEL + s[17..];
    assert V.OLD_LABEL == "USER_PERSISTENCE_" && V.OLD_LABEL[..5] == "USER_";
    assert s[..5] == s[..17][..5];
    forall i | 5 <= i < |s| ensures TagChar(s[i]) {
      if i < 17 { assert s[i] == V.OLD_LABEL[i]; } else { assert s[i] == now[i - 12]; }
    }
  }

  /** Exactly the names of Baseline's own volumes, current or old, count as its own labels. */
  lemma OwnLabelExactly(s: string)
    ensures IsOwnLabel(s) <==> VolumeName(s)
  {
    CurrentExactly(s);
    if V.Canonical(s) != s && CurrentName(V.Canonical(s)) { OldNames(s); }
    if s == "SUBSTRATE_PERSISTENCE" {
      assert s in V.RENAMED;
      CurrentExactly(V.Canonical(s));
    }
  }

  /** For instance, a partition called DATA is somebody else's. */
  lemma DataIsForeign()
    ensures !VolumeName("DATA") && !IsOwnLabel("DATA")
  {
    OwnLabelExactly("DATA");
    assert "DATA"[0] == 'D' && |"DATA"| == 4;
    assert "USER_"[0] == 'U' && "APPDATA_"[0] == 'A';
  }

  // ----- drives --------------------------------------------------------------------------------------------------

  predicate Bare(d: Drive) { d.fstype == "" && d.children == [] }

  /** There are partitions, and all of them bear names of Baseline's volumes. */
  predicate OnlyVolumes(d: Drive) {
    && (exists i :: 0 <= i < |d.children| && d.children[i].kind == "part")
    && forall i :: 0 <= i < |d.children| && d.children[i].kind == "part" ==> VolumeName(d.children[i].tag)
  }

  lemma {:induction false} LabelsListed(children: seq<Child>)
    ensures DriveLabels(children) != [] <==> exists i :: 0 <= i < |children| && children[i].kind == "part"
    ensures (forall k :: 0 <= k < |DriveLabels(children)| ==> IsOwnLabel(DriveLabels(children)[k]))
            <==> forall i :: 0 <= i < |children| && children[i].kind == "part" ==> IsOwnLabel(children[i].tag)
  {
    if children != [] {
      var first, rest := if children[0].kind == "part" then [children[0].tag] else [], DriveLabels(children[1..]);
      LabelsListed(children[1..]);
      assert DriveLabels(children) == first + rest;
      assert forall i :: 0 < i < |children| ==> children[i] == children[1..][i - 1];
      assert forall k :: |first| <= k < |first + rest| ==> (first + rest)[k] == rest[k - |first|];
      if forall k :: 0 <= k < |first + rest| ==> IsOwnLabel((first + rest)[k]) {
        forall k | 0 <= k < |rest| ensures IsOwnLabel(rest[k]) { assert (first + rest)[k + |first|] == rest[k]; }
        if first != [] { assert (first + rest)[0] == children[0].tag; }
      }
    }
  }

  /** A drive may be adopted exactly when it is bare, or bears nothing but Baseline's volumes. */
  lemma AdoptableExactly(d: Drive)
    ensures Adoptable(d) <==> Bare(d) || OnlyVolumes(d)
  {
    LabelsListed(d.children);
    forall s: string ensures IsOwnLabel(s) <==> VolumeName(s) { OwnLabelExactly(s); }
  }

  predicate Hex(s: string) { forall i :: 0 <= i < |s| ==> '0' <= s[i] <= '9' || 'a' <= s[i] <= 'f' }

  /** Lower-case hexadecimal groups of 8, 4, 4, 4 and 12. */
  predicate Grouped(g: string, a: string, b: string, c: string, d: string, e: string) {
    && Hex(a) && Hex(b) && Hex(c) && Hex(d) && Hex(e)
    && |a| == 8 && |b| == 4 && |c| == 4 && |d| == 4 && |e| == 12
    && g == a + "-" + b + "-" + c + "-" + d + "-" + e
  }

  ghost predicate PlainGuid(g: string) {
    exists a: string, b: string, c: string, d: string, e: string :: Grouped(g, a, b, c, d, e)
  }

  lemma GuidExactly(g: string)
    ensures GuidShaped(g) <==> PlainGuid(g)
  {
    if GuidShaped(g) {
      var a, b, c, d, e := g[..8], g[9..13], g[14..18], g[19..23], g[24..];
      assert g[8] == '-' && g[13] == '-' && g[18] == '-' && g[23] == '-';
      assert Grouped(g, a, b, c, d, e);
    }
  }

  /** It may be erased exactly when it is bare, or bears nothing but Baseline's volumes and carries a GUID on record. */
  lemma MayEraseExactly(s: Sys)
    ensures MayErase(s) <==>
              || Bare(s.drive)
              || (OnlyVolumes(s.drive) && PlainGuid(Lower(Strip(s.drive.guid)))
                  && Lower(Strip(s.drive.guid)) in s.registry)
  {
    AdoptableExactly(s.drive);
    GuidExactly(Normal(s.drive.guid));
  }

  /** No tool is ever started on a drive with a file system of its own and no partition, or with a partition that bears
      any other name, whatever its identifier; and nothing is registered for it. */
  lemma StrangersDriveUntouched(s: Sys, ops: seq<Op>, i: nat)
    requires !Bare(s.drive) && !OnlyVolumes(s.drive)
    requires i <= |ops| && forall op :: op in ops ==> !op.Outside?
    ensures Run(s, ops)[i].drive == s.drive && Run(s, ops)[i].registry == s.registry && Run(s, ops)[i].ran == s.ran
  {
    AdoptableExactly(s.drive);
    ForeignDriveUntouched(s, ops, i);
  }

  lemma OneForeignPartitionIsEnough(d: Drive, i: nat)
    requires i < |d.children| && d.children[i].kind == "part" && !VolumeName(d.children[i].tag)
    ensures !Bare(d) && !OnlyVolumes(d)
  {
  }

  // ----- reports -------------------------------------------------------------------------------------------------

  predicate BlankLine(line: string) { Strip(line) == "" }

  /** How many lines that are not blank name a disk. */
  function DiskLines(lines: seq<string>): nat {
    if lines == [] then 0
    else DiskLines(lines[1..]) + if !BlankLine(lines[0]) && FieldAt(Split(lines[0], ' '), 1) == "disk" then 1 else 0
  }

  lemma {:induction false} RowsExactly(lines: seq<string>)
    ensures RowsOf(lines).Some? <==> forall i :: 0 <= i < |lines| ==> BlankLine(lines[i]) || ' ' in lines[i]
    ensures RowsOf(lines).Some? ==> |Disks(RowsOf(lines).value)| == DiskLines(lines)
  {
    if lines != [] {
      RowsExactly(lines[1..]);
      TwoFieldsExactly(lines[0]);
      assert forall i :: 0 < i < |lines| ==> lines[i] == lines[1..][i - 1];
    }
  }

  lemma {:induction false} TwoFieldsExactly(s: string)
    ensures |Split(s, ' ')| >= 2 <==> ' ' in s
  {
    if s != [] {
      TwoFieldsExactly(s[1..]);
      assert s == [s[0]] + s[1..];
    }
  }

  /** A drive counts as known exactly when the command succeeded, every line that is not blank has at least two fields,
      and exactly one of them is a disk; any other report stands for a drive that holds data. */
  lemma ReportKnownExactly(output: Option<string>)
    ensures ReadOf(output).known <==>
              && output.Some?
              && (forall i :: 0 <= i < |Lines(output.value)| ==>
                    BlankLine(Lines(output.value)[i]) || ' ' in Lines(output.value)[i])
              && DiskLines(Lines(output.value)) == 1
    ensures !ReadOf(output).known ==> ReadOf(output).hasData && ReadOf(output).guid.None? && ReadOf(output).labels == []
  {
    if output.Some? { RowsExactly(Lines(output.value)); }
  }

  // ----- not seeing ----------------------------------------------------------------------------------------------

  predicate Seeing(tape: seq<Event>, i: nat) { i < |tape| ==> tape[i].fault.Fine? }

  /** A drive that cannot be read is neither stamped nor laid out: a tool is started only after every read before it has
      shown the drive. */
  lemma BlindTouchesNothing(s: Sys, confirmed: bool, tags: Option<seq<string>>, guid: string)
    ensures Stamp(s, guid).s.ran != s.ran ==> Seeing(s.tape, 0)
    ensures LayOut(s, confirmed, tags, guid).s.ran != s.ran ==> Seeing(s.tape, 2) && Seeing(s.tape, 3)
  {
    var mounts := Check(s);
    if confirmed && mounts.Go? { BlindApply(mounts.s, tags); }
  }

  lemma BlindApply(s: Sys, tags: Option<seq<string>>)
    ensures !Seeing(s.tape, 1) || !Seeing(s.tape, 2) ==> !Apply(s, tags).Go? && Apply(s, tags).s.ran == s.ran
  {
    var t := Check(s);
    if t.Go? && !Seeing(s.tape, 1) { assert !Seeing(t.s.tape, 0) && Look(t.s) == UNKNOWN; }
    if t.Go? && Looked(t.s).Go? && !Seeing(s.tape, 2) { assert Look(Looked(t.s).s) == UNKNOWN; }
  }

  // ----- what success means --------------------------------------------------------------------------------------

  /** No tool reports a success that it did not have. */
  predicate Reliable(tape: seq<Event>) { forall i :: 0 <= i < |tape| ==> !tape[i].fault.Ignored? }

  predicate FormattedAs(d: Drive, tags: seq<string>, from: nat) {
    && |d.children| == |tags|
    && forall i :: from <= i < |tags| ==> d.children[i] == Child("part", "part", "ext4", tags[i])
  }

  lemma StepGo(s: Sys, steps: seq<Tool>)
    requires Reliable(s.tape) && steps != [] && RunSteps(s, steps).Go?
    ensures var u := RunTool(Check(s).s, steps[0]);
            && Check(s).Go? && u.Go? && Reliable(u.s.tape) && RunSteps(s, steps) == RunSteps(u.s, steps[1..])
            && u.s.drive == Done(steps[0], s.drive, NextEvent(Check(s).s))
  {
  }

  lemma {:induction false} FormatsGo(s: Sys, tags: seq<string>, k: nat)
    requires k <= |tags| == |s.drive.children| && Reliable(s.tape) && RunSteps(s, Formats(tags, k)).Go?
    ensures var t := RunSteps(s, Formats(tags, k)).s;
            && FormattedAs(t.drive, tags, k) && forall i :: 0 <= i < k ==> t.drive.children[i] == s.drive.children[i]
    decreases |tags| - k
  {
    if k < |tags| {
      StepGo(s, Formats(tags, k));
      var u := RunTool(Check(s).s, Format(k, tags[k])).s;
      assert Formats(tags, k)[1..] == Formats(tags, k + 1);
      FormatsGo(u, tags, k + 1);
    }
  }

  lemma PartitionedGo(s: Sys, tags: seq<string>, steps: seq<Tool>)
    requires Reliable(s.tape) && steps == [Partition(|tags|)] + Formats(tags, 0) && RunSteps(s, steps).Go?
    ensures FormattedAs(RunSteps(s, steps).s.drive, tags, 0)
  {
    StepGo(s, steps);
    assert steps[1..] == Formats(tags, 0);
    FormatsGo(RunTool(Check(s).s, Partition(|tags|)).s, tags, 0);
  }

  lemma ZappedGo(s: Sys, tags: seq<string>, steps: seq<Tool>)
    requires Reliable(s.tape) && steps == [Zap, Partition(|tags|)] + Formats(tags, 0) && RunSteps(s, steps).Go?
    ensures FormattedAs(RunSteps(s, steps).s.drive, tags, 0)
  {
    StepGo(s, steps);
    assert steps[1..] == [Partition(|tags|)] + Formats(tags, 0);
    PartitionedGo(RunTool(Check(s).s, Zap).s, tags, steps[1..]);
  }

  lemma StepsGo(s: Sys, tags: seq<string>, steps: seq<Tool>)
    requires Reliable(s.tape) && steps == [Wipe, Zap, Partition(|tags|)] + Formats(tags, 0) && RunSteps(s, steps).Go?
    ensures FormattedAs(RunSteps(s, steps).s.drive, tags, 0)
  {
    StepGo(s, steps);
    assert steps[1..] == [Zap, Partition(|tags|)] + Formats(tags, 0);
    ZappedGo(RunTool(Check(s).s, Wipe).s, tags, steps[1..]);
  }

  /** When the layout reports success and no tool lied, the drive holds one ext4 file system for every planned volume,
      in order and by name, and nothing else. */
  lemma SuccessMeansLaidOut(s: Sys, confirmed: bool, tags: Option<seq<string>>, guid: string)
    requires Reliable(s.tape) && LayOut(s, confirmed, tags, guid).Go?
    ensures confirmed && tags.Some? && FormattedAs(LayOut(s, confirmed, tags, guid).s.drive, tags.value, 0)
  {
    var mounts := Check(s);
    var applied := Apply(mounts.s, tags);
    ApplyGo(mounts.s, tags);
    StampSafe(Check(applied.s).s, guid);
  }

  lemma ApplyGo(s: Sys, tags: Option<seq<string>>)
    requires Reliable(s.tape) && Apply(s, tags).Go?
    ensures tags.Some? && FormattedAs(Apply(s, tags).s.drive, tags.value, 0)
  {
    var v := Looked(Looked(Check(s).s).s).s;
    StepsGo(v, tags.value, Steps(tags.value));
  }
}
