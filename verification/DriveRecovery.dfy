/** Where an interrupted or finished layout leaves a drive, and from where it can be laid out again. */
module DriveRecovery {
  import opened Basics
  import opened DriveGuard
  import opened DriveProtocol
  import opened DriveSafety
  import opened Text
  import L = DriveLayout

  // ----- stamping ------------------------------------------------------------------------------------------------

  lemma {:induction false} LowerUnchanged(s: string)
    requires forall i :: 0 <= i < |s| ==> !('A' <= s[i] <= 'Z')
    ensures Lower(s) == s
  {
    if s != [] {
      LowerUnchanged(s[1..]);
      assert [s[0]] + s[1..] == s;
    }
  }

  lemma NormalGuid(guid: string)
    requires GuidShaped(guid)
    ensures Normal(guid) == guid && Lower(guid) == guid && guid != ""
  {
    StripSpaceFree(guid);
    LowerUnchanged(guid);
  }

  /** After a stamp that nothing disturbs, the drive may be erased exactly when it may be adopted. */
  lemma StampAllowsExactly(s: Sys, guid: string)
    requires s.tape == [] && GuidShaped(guid)
    ensures MayErase(Stamp(s, guid).s) <==> Adoptable(s.drive)
    ensures SameContents(s.drive, Stamp(s, guid).s.drive)
  {
    NormalGuid(guid);
    StampSafe(s, guid);
    GuidIsNotContents(s.drive, Stamp(s, guid).s.drive);
    if Adoptable(s.drive) && !(s.drive.guid != "" && IsInstallerGuid(s.registry, s.drive.guid)) {
      assert Stamp(s, guid) == Adopt(s, guid);
      assert Adopt(s, guid).s == Sys(s.drive.(guid := guid), s.registry + {guid}, [], s.ran + [SetGuid(guid)]);
    }
  }

  // ----- interrupted layouts -------------------------------------------------------------------------------------

  /** The first `n` calls go well, whatever new partitions show; call `n` fails, or the process dies in it, with any
      effect. What the tape holds after that does not matter. */
  predicate Interrupts(tape: seq<Event>, n: nat) {
    && n < |tape|
    && (tape[n].fault.Failed? || tape[n].fault.Killed?)
    && forall i :: 0 <= i < n ==> tape[i].fault.Fine?
  }

  lemma InterruptsLater(tape: seq<Event>, n: nat, k: nat)
    requires Interrupts(tape, n) && k <= n
    ensures Interrupts(tape[k..], n - k)
  {
  }

  /** The drive after `n` more calls of a layout with these steps, two calls a step, and the fatal one. */
  function Reached(steps: seq<Tool>, d: Drive, tape: seq<Event>, n: nat): Drive
    requires Interrupts(tape, n)
    decreases |steps|
  {
    if steps == [] || n == 0 then d
    else if n == 1 then WithEffect(steps[0], d, tape[1], tape[1].fault.effect)
    else
      InterruptsLater(tape, n, 2);
      Reached(steps[1..], Done(steps[0], d, tape[1]), tape[2..], n - 2)
  }

  lemma {:induction false} StepsReach(s: Sys, steps: seq<Tool>, n: nat)
    requires Interrupts(s.tape, n)
    ensures var f := RunSteps(s, steps);
            && f.s.drive == Reached(steps, s.drive, s.tape, n) && f.s.registry == s.registry
            && (if n < 2 * |steps| then !f.Go? else f.Go? && f.s.tape == s.tape[2 * |steps|..])
    decreases |steps|
  {
    if steps == [] || n < 2 { return; }
    var next := RunTool(Check(s).s, steps[0]).s;
    assert next.tape == s.tape[2..];
    InterruptsLater(s.tape, n, 2);
    StepsReach(next, steps[1..], n - 2);
  }

  /** A drive of which the first `k` partitions are formatted; the others show the scraps that `table`, the event of the
      partitioning, brought to light. */
  function Formatted(d: Drive, tags: seq<string>, k: nat, table: Event): Drive {
    Drive(d.name, "", table.guid, seq(|tags|, i requires 0 <= i < |tags| =>
      NewPart(if i < k then Scrap("ext4", tags[i]) else ScrapAt(table, i))))
  }

  lemma FormattedNext(d: Drive, tags: seq<string>, k: nat, table: Event, e: Event)
    requires k < |tags|
    ensures Done(Format(k, tags[k]), Formatted(d, tags, k, table), e) == Formatted(d, tags, k + 1, table)
  {
    var next := Formatted(d, tags, k + 1, table);
    assert Done(Format(k, tags[k]), Formatted(d, tags, k, table), e).children == next.children;
  }

  lemma {:induction false} FormatsCount(tags: seq<string>, from: nat)
    requires from <= |tags|
    ensures |Formats(tags, from)| == |tags| - from
    decreases |tags| - from
  {
    if from < |tags| { FormatsCount(tags, from + 1); }
  }

  /** With `n` calls of formatting left, the drive has `k` formatted partitions; the fatal call may have changed one
      more. */
  function FormatsLeave(d: Drive, tags: seq<string>, from: nat, table: Event, tape: seq<Event>, n: nat): Drive
    requires Interrupts(tape, n)
  {
    var k := from + n / 2;
    if k < |tags| && n % 2 == 1
    then WithEffect(Format(k, tags[k]), Formatted(d, tags, k, table), tape[n], tape[n].fault.effect)
    else Formatted(d, tags, Min(k, |tags|), table)
  }

  lemma {:induction false} FormatsReach(d: Drive, tags: seq<string>, from: nat, table: Event, tape: seq<Event>, n: nat)
    requires from <= |tags| && Interrupts(tape, n)
    ensures Reached(Formats(tags, from), Formatted(d, tags, from, table), tape, n)
            == FormatsLeave(d, tags, from, table, tape, n)
    decreases |tags| - from
  {
    if from == |tags| || n < 2 { return; }
    FormattedNext(d, tags, from, table, tape[1]);
    InterruptsLater(tape, n, 2);
    FormatsReach(d, tags, from + 1, table, tape[2..], n - 2);
  }

  /** Whether a layout that ends at call `n` has written a partition table: call 9 writes it. */
  predicate Partitioned(tape: seq<Event>, n: nat)
    requires Interrupts(tape, n)
  { n > 9 || (n == 9 && tape[9].fault.effect.Everything?) }

  /** What the layout leaves behind: the drive as it was, or blank, or partitioned as far as it got. */
  function LeftBehind(d: Drive, tags: seq<string>, tape: seq<Event>, n: nat): Drive
    requires Interrupts(tape, n)
  {
    if n > 9 then
      InterruptsLater(tape, n, 10);
      FormatsLeave(d, tags, 0, tape[9], tape[10..], n - 10)
    else if Partitioned(tape, n) then Formatted(d, tags, 0, tape[9])
    else if n > 5 || (n == 5 && tape[5].fault.effect.Everything?) then Blank(d)
    else d
  }

  lemma PartitionedFirst(d: Drive, tags: seq<string>, e: Event)
    ensures Done(Partition(|tags|), d, e) == Formatted(d, tags, 0, e)
  {
    assert Done(Partition(|tags|), d, e).children == Formatted(d, tags, 0, e).children;
  }

  lemma ReachedStep(steps: seq<Tool>, d: Drive, tape: seq<Event>, n: nat)
    requires Interrupts(tape, n) && steps != [] && n >= 2
    ensures Interrupts(tape[2..], n - 2)
    ensures Reached(steps, d, tape, n) == Reached(steps[1..], Done(steps[0], d, tape[1]), tape[2..], n - 2)
  {
    InterruptsLater(tape, n, 2);
  }

  lemma LayOutSteps(d: Drive, tags: seq<string>, tape: seq<Event>, n: nat)
    requires Interrupts(tape, n) && n >= 4
    ensures Interrupts(tape[4..], n - 4)
    ensures Reached(Steps(tags), d, tape[4..], n - 4) == LeftBehind(d, tags, tape, n)
  {
    InterruptsLater(tape, n, 4);
    var steps := Steps(tags);
    var t0 := tape[4..];
    assert steps[1..] == [Zap, Partition(|tags|)] + Formats(tags, 0);
    assert steps[1..][1..] == [Partition(|tags|)] + Formats(tags, 0);
    assert steps[1..][1..][1..] == Formats(tags, 0);
    if n < 6 { return; }
    ReachedStep(steps, d, t0, n - 4);
    var t1 := t0[2..];
    assert t1 == tape[6..];
    if n < 8 { return; }
    ReachedStep(steps[1..], Blank(d), t1, n - 6);
    var t2 := t1[2..];
    assert t2 == tape[8..];
    PartitionedFirst(Blank(d), tags, tape[9 - (if n < 9 then 1 else 0)]);
    assert Formatted(Blank(d), tags, 0, tape[9 - (if n < 9 then 1 else 0)])
           == Formatted(d, tags, 0, tape[9 - (if n < 9 then 1 else 0)]);
    if n < 10 { return; }
    ReachedStep(steps[1..][1..], Blank(d), t2, n - 8);
    assert t2[2..] == tape[10..] && t2[1] == tape[9];
    FormatsReach(d, tags, 0, tape[9], tape[10..], n - 10);
  }

  lemma ErasableReads(s: Sys)
    requires MayErase(s)
    ensures IsBaselineOnly(Seen(s.drive)) && MayFormat(Seen(s.drive), s.registry)
  {
    if s.drive.guid == "" { assert Normal("") == ""; }
  }

  /** A layout interrupted before its stamp leaves the drive exactly as far as it got, and nothing registered. */
  lemma InterruptedLayOut(s: Sys, tags: seq<string>, guid: string, n: nat)
    requires MayErase(s) && Interrupts(s.tape, n) && n <= 10 + 2 * |tags|
    ensures var f := LayOut(s, true, Some(tags), guid);
            !f.Go? && f.s.drive == LeftBehind(s.drive, tags, s.tape, n) && f.s.registry == s.registry
  {
    if n < 4 {
      StopsBeforeSteps(s, tags, guid, n);
    } else {
      StopsInSteps(s, tags, n);
      ReachesSteps(s, tags, guid, n);
    }
  }

  lemma StopsInSteps(s: Sys, tags: seq<string>, n: nat)
    requires MayErase(s) && Interrupts(s.tape, n) && 4 <= n <= 10 + 2 * |tags|
    ensures var f := RunSteps(s.(tape := s.tape[4..]), Steps(tags));
            && f.s.drive == LeftBehind(s.drive, tags, s.tape, n) && f.s.registry == s.registry
            && (f.Go? ==> f.s.tape == s.tape[n..])
  {
    LayOutSteps(s.drive, tags, s.tape, n);
    StepsReach(s.(tape := s.tape[4..]), Steps(tags), n - 4);
    FormatsCount(tags, 0);
    if n == 10 + 2 * |tags| { assert s.tape[4..][n - 4..] == s.tape[n..]; }
  }

  lemma StopsBeforeSteps(s: Sys, tags: seq<string>, guid: string, n: nat)
    requires MayErase(s) && Interrupts(s.tape, n) && n < 4
    ensures var f := LayOut(s, true, Some(tags), guid);
            !f.Go? && f.s.drive == s.drive && f.s.registry == s.registry
  {
    ErasableReads(s);
  }

  /** The four calls before the first step go well; the check after the last one may be the fatal call. */
  lemma ReachesSteps(s: Sys, tags: seq<string>, guid: string, n: nat)
    requires MayErase(s) && Interrupts(s.tape, n) && n >= 4
    ensures var f, end := RunSteps(s.(tape := s.tape[4..]), Steps(tags)), LayOut(s, true, Some(tags), guid);
            && (!f.Go? ==> end == f)
            && (f.Go? && f.s.tape == s.tape[n..] ==>
                  !end.Go? && end.s.drive == f.s.drive && end.s.registry == f.s.registry)
  {
    ErasableReads(s);
    var a := s.tape[1..];
    var b := a[1..];
    var c := b[1..];
    assert b == s.tape[2..] && c == s.tape[3..] && c[1..] == s.tape[4..];
    assert Apply(s.(tape := a), Some(tags)) == RunSteps(s.(tape := c[1..]), Steps(tags));
  }

  // ----- what can be laid out again ------------------------------------------------------------------------------

  lemma {:induction false} LabelsOfParts(children: seq<Child>)
    requires forall i :: 0 <= i < |children| ==> children[i].kind == "part"
    ensures |DriveLabels(children)| == |children|
    ensures forall i :: 0 <= i < |children| ==> DriveLabels(children)[i] == children[i].tag
  {
    if children != [] { LabelsOfParts(children[1..]); }
  }

  predicate AllOwn(tags: seq<string>) { forall i :: 0 <= i < |tags| ==> IsOwnLabel(tags[i]) }

  /** A partitioned drive may be adopted exactly when every partition shows one of Baseline's own labels. */
  lemma PartsAdoptable(d: Drive, shown: seq<string>)
    requires |d.children| == |shown| > 0
    requires forall i :: 0 <= i < |shown| ==> d.children[i].kind == "part" && d.children[i].tag == shown[i]
    ensures Adoptable(d) <==> AllOwn(shown)
  {
    LabelsOfParts(d.children);
  }

  /** The labels that partitions show after an interrupted layout: the new ones as far as formatting got, whatever an
      interrupted `mkfs` left, and beyond that whatever the partitions held before. */
  function Shown(tags: seq<string>, tape: seq<Event>, n: nat): seq<string>
    requires Interrupts(tape, n) && Partitioned(tape, n)
  {
    seq(|tags|, i requires 0 <= i < |tags| => ShownAt(tags, tape, n, i))
  }

  function ShownAt(tags: seq<string>, tape: seq<Event>, n: nat, i: nat): string
    requires Interrupts(tape, n) && Partitioned(tape, n) && i < |tags|
  {
    if 12 + 2 * i <= n then tags[i]
    else if n == 11 + 2 * i && tape[n].fault.effect.Everything? then tags[i]
    else if n == 11 + 2 * i && tape[n].fault.effect.Residue? then ScrapAt(tape[n], 0).tag
    else ScrapAt(tape[9], i).tag
  }

  lemma LeftBehindShows(d: Drive, tags: seq<string>, tape: seq<Event>, n: nat)
    requires Interrupts(tape, n) && Partitioned(tape, n) && n <= 10 + 2 * |tags|
    ensures var left := LeftBehind(d, tags, tape, n);
            && |left.children| == |tags|
            && forall i :: 0 <= i < |tags| ==> left.children[i].kind == "part"
                                               && left.children[i].tag == ShownAt(tags, tape, n, i)
  {
    if n > 9 {
      InterruptsLater(tape, n, 10);
      assert tape[10..][n - 10] == tape[n];
    }
  }

  /** Wherever and however a layout is interrupted, the next undisturbed stamp makes the drive fit to be laid out again
      exactly when no partition table was written, or every partition shows one of Baseline's own labels. */
  lemma InterruptedLayOutRecoversExactly(s: Sys, tags: seq<string>, g0: string, g1: string, n: nat)
    requires MayErase(s) && Interrupts(s.tape, n) && n <= 10 + 2 * |tags|
    requires tags != [] && GuidShaped(g1)
    ensures var t := LayOut(s, true, Some(tags), g0).s.(tape := []);
            MayErase(Stamp(t, g1).s) <==> !Partitioned(s.tape, n) || AllOwn(Shown(tags, s.tape, n))
  {
    InterruptedLayOut(s, tags, g0, n);
    var t := LayOut(s, true, Some(tags), g0).s.(tape := []);
    StampAllowsExactly(t, g1);
    if Partitioned(s.tape, n) {
      LeftBehindShows(s.drive, tags, s.tape, n);
      PartsAdoptable(t.drive, Shown(tags, s.tape, n));
    }
  }

  /** With any other label in between, no sequence of operations starts a tool on the drive any more. */
  lemma HalfwayIsStuck(s: Sys, tags: seq<string>, g: string, n: nat, ops: seq<Op>, i: nat)
    requires MayErase(s) && Interrupts(s.tape, n) && n <= 10 + 2 * |tags| && tags != []
    requires Partitioned(s.tape, n) && !AllOwn(Shown(tags, s.tape, n))
    requires i <= |ops| && forall op :: op in ops ==> !op.Outside?
    ensures var t := LayOut(s, true, Some(tags), g).s;
            && t.drive == LeftBehind(s.drive, tags, s.tape, n)
            && Run(t, ops)[i].drive == t.drive && Run(t, ops)[i].ran == t.ran
  {
    InterruptedLayOut(s, tags, g, n);
    var t := LayOut(s, true, Some(tags), g).s;
    LeftBehindShows(s.drive, tags, s.tape, n);
    PartsAdoptable(t.drive, Shown(tags, s.tape, n));
    ForeignDriveUntouched(t, ops, i);
  }

  lemma BlankLabel()
    ensures !IsOwnLabel("")
  {
    var blank := "";
    assert |blank| == 0 && |"BASELINE"| == 8 && |"INSTALLER_CACHE"| == 15 && |"USER"| == 4;
  }

  /** On a drive whose new partitions show nothing, that is every interruption between the partition table and the last
      file system. */
  lemma FreshDriveGetsStuck(tags: seq<string>, tape: seq<Event>, n: nat)
    requires Interrupts(tape, n) && Partitioned(tape, n) && n < 10 + 2 * |tags|
    requires tape[9].scraps == [] && tape[n].scraps == []
    requires n == 9 + 2 * |tags| ==> !tape[n].fault.effect.Everything?
    ensures !AllOwn(Shown(tags, tape, n))
  {
    BlankLabel();
    assert ShownAt(tags, tape, n, |tags| - 1) == "";
    assert Shown(tags, tape, n)[|tags| - 1] == "";
  }

  /** On a drive laid out before, whose partitions still show the labels they had, it is none. */
  lemma OldLabelsSaveTheDrive(tags: seq<string>, tape: seq<Event>, n: nat)
    requires Interrupts(tape, n) && Partitioned(tape, n) && AllOwn(tags) && |tape[9].scraps| == |tags|
    requires forall i :: 0 <= i < |tags| ==> tape[9].scraps[i].tag == tags[i]
    requires tape[n].fault.effect.Residue? && n > 9 ==> IsOwnLabel(ScrapAt(tape[n], 0).tag)
    ensures AllOwn(Shown(tags, tape, n))
  {
    forall i | 0 <= i < |tags| ensures IsOwnLabel(ShownAt(tags, tape, n, i)) {
      assert ScrapAt(tape[9], i).tag == tags[i];
    }
  }

  // ----- undisturbed layouts -------------------------------------------------------------------------------------

  function DoneAll(steps: seq<Tool>, d: Drive): Drive
    decreases |steps|
  { if steps == [] then d else DoneAll(steps[1..], Done(steps[0], d, QUIET)) }

  lemma {:induction false} QuietSteps(s: Sys, steps: seq<Tool>)
    requires s.tape == []
    ensures var f := RunSteps(s, steps); f.Go? && f.s == Sys(DoneAll(steps, s.drive), s.registry, [], f.s.ran)
    decreases |steps|
  {
    if steps != [] { QuietSteps(RunTool(Check(s).s, steps[0]).s, steps[1..]); }
  }

  lemma {:induction false} FormatsDone(d: Drive, tags: seq<string>, from: nat)
    requires from <= |tags|
    ensures DoneAll(Formats(tags, from), Formatted(d, tags, from, QUIET)) == Formatted(d, tags, |tags|, QUIET)
    decreases |tags| - from
  {
    if from < |tags| {
      FormattedNext(d, tags, from, QUIET, QUIET);
      FormatsDone(d, tags, from + 1);
    }
  }

  lemma StepsDone(d: Drive, tags: seq<string>)
    ensures DoneAll(Steps(tags), d) == Formatted(d, tags, |tags|, QUIET)
  {
    var steps := Steps(tags);
    assert steps[1..] == [Zap, Partition(|tags|)] + Formats(tags, 0);
    assert steps[1..][1..] == [Partition(|tags|)] + Formats(tags, 0);
    assert steps[1..][1..][1..] == Formats(tags, 0);
    assert DoneAll(steps, d) == DoneAll(steps[1..], Blank(d)) == DoneAll(steps[1..][1..], Blank(d));
    PartitionedFirst(Blank(d), tags, QUIET);
    assert Formatted(Blank(d), tags, 0, QUIET) == Formatted(d, tags, 0, QUIET);
    FormatsDone(d, tags, 0);
  }

  /** An undisturbed layout of an erasable drive succeeds, and it can be repeated exactly when every label it wrote is
      one Baseline recognises as its own. */
  lemma LayOutRepeatsExactly(s: Sys, tags: seq<string>, guid: string)
    requires MayErase(s) && s.tape == [] && tags != [] && GuidShaped(guid)
    ensures LayOut(s, true, Some(tags), guid).Go?
    ensures SameContents(LayOut(s, true, Some(tags), guid).s.drive, Formatted(s.drive, tags, |tags|, QUIET))
    ensures MayErase(LayOut(s, true, Some(tags), guid).s) <==> AllOwn(tags)
  {
    ErasableReads(s);
    QuietSteps(s, Steps(tags));
    StepsDone(s.drive, tags);
    var t := RunSteps(s, Steps(tags)).s;
    PartsAdoptable(t.drive, tags);
    StampAllowsExactly(t, guid);
    StampEnds(t, guid);
  }

  lemma StampEnds(s: Sys, guid: string)
    requires s.tape == []
    ensures !Stamp(s, guid).Dead?
  {
  }

  // ----- which personas may be laid out --------------------------------------------------------------------------

  /** A volume's file system label: ext4 keeps sixteen characters of its name. */
  function FsLabel(name: string): string { name[..Min(16, |name|)] }

  function FsLabels(personas: seq<string>): seq<string> {
    seq(4 + 2 * |personas|, k requires 0 <= k < 4 + 2 * |personas| => FsLabel(L.VolumeAt(personas, k).name))
  }

  /** Letters, digits and underscores as far as a USER label shows them. */
  predicate Plain(persona: string) {
    persona != "" && forall i :: 0 <= i < Min(11, |Upper(persona)|) ==> TagChar(Upper(persona)[i])
  }

  lemma {:induction false} UpperLength(s: string)
    ensures |Upper(s)| == |s|
  {
    if s != [] { UpperLength(s[1..]); }
  }

  lemma UserLabelOwn(persona: string)
    ensures IsOwnLabel(FsLabel("USER_" + Upper(persona))) <==> Plain(persona)
  {
    UpperLength(persona);
    var up, tag := Upper(persona), FsLabel("USER_" + Upper(persona));
    assert tag[..5] == "USER_";
    assert tag[0] == 'U' && |tag| >= 5;
    forall i | 5 <= i < |tag| ensures tag[i] == up[i - 5] { }
    if Plain(persona) {
      assert Tagged("USER_", tag);
    } else if IsOwnLabel(tag) {
      assert Tagged("USER_", tag);
      forall i | 0 <= i < Min(11, |up|) ensures TagChar(up[i]) { assert tag[i + 5] == up[i]; }
    }
  }

  lemma AppDataLabelOwn(persona: string)
    requires Plain(persona)
    ensures IsOwnLabel(FsLabel("APPDATA_" + Upper(persona)))
  {
    UpperLength(persona);
    var up, tag := Upper(persona), FsLabel("APPDATA_" + Upper(persona));
    assert tag[..8] == "APPDATA_";
    forall i | 8 <= i < |tag| ensures TagChar(tag[i]) { assert tag[i] == up[i - 8]; }
    assert Tagged("APPDATA_", tag);
  }

  lemma SharedLabelOwn(k: nat)
    requires k < 4
    ensures IsOwnLabel(FsLabel(L.SHARED[k].name))
  {
    assert FsLabel("BASELINE") == "BASELINE" && FsLabel("INSTALLER_CACHE") == "INSTALLER_CACHE";
    assert FsLabel("SESSION_TEMP") == "SESSION_TEMP" && FsLabel("SUBSTRATE") == "SUBSTRATE";
  }

  /** A drive laid out for a set of personas is recognised as Baseline's own, and so can ever be laid out again, exactly
      when every persona is plain. */
  lemma PersonaLayOutRepeatsExactly(s: Sys, personas: seq<string>, guid: string)
    requires MayErase(s) && s.tape == [] && GuidShaped(guid)
    ensures MayErase(LayOut(s, true, Some(FsLabels(personas)), guid).s) <==> forall p :: p in personas ==> Plain(p)
  {
    var tags, n := FsLabels(personas), |personas|;
    LayOutRepeatsExactly(s, tags, guid);
    if AllOwn(tags) {
      forall p | p in personas ensures Plain(p) {
        var i :| 0 <= i < n && personas[i] == p;
        assert tags[4 + i] == FsLabel("USER_" + Upper(p));
        UserLabelOwn(p);
      }
    }
    if forall p :: p in personas ==> Plain(p) {
      forall k | 0 <= k < |tags| ensures IsOwnLabel(tags[k]) { PersonaLabelOwn(personas, k); }
    }
  }

  /** The default personas are plain, so their layout can be repeated. */
  lemma DefaultLayOutRepeats(s: Sys, guid: string)
    requires MayErase(s) && s.tape == [] && GuidShaped(guid)
    ensures MayErase(LayOut(s, true, Some(FsLabels(L.DEFAULT_PERSONAS)), guid).s)
  {
    DefaultsArePlain();
    PersonaLayOutRepeatsExactly(s, L.DEFAULT_PERSONAS, guid);
  }

  lemma DefaultsArePlain()
    ensures forall p :: p in L.DEFAULT_PERSONAS ==> Plain(p)
  {
    assert Upper("admin") == "ADMIN" && Upper("personal") == "PERSONAL";
  }

  lemma PersonaLabelOwn(personas: seq<string>, k: nat)
    requires k < 4 + 2 * |personas| && forall p :: p in personas ==> Plain(p)
    ensures IsOwnLabel(FsLabel(L.VolumeAt(personas, k).name))
  {
    var n := |personas|;
    if k < 4 { SharedLabelOwn(k); }
    else if k < 4 + n { UserLabelOwn(personas[k - 4]); }
    else { AppDataLabelOwn(personas[k - 4 - n]); }
  }
}
