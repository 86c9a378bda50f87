/** Over every run of stamping and laying out, with any tool failing or the process dying anywhere, no drive that holds
    somebody's data is changed. */
module DriveSafety {
  import opened Basics
  import opened DriveGuard
  import opened DriveProtocol
  import opened Text

  predicate SameContents(a: Drive, b: Drive) { a.(guid := b.guid) == b }

  /** What may be given an installer GUID. */
  predicate Adoptable(d: Drive) { IsBaselineOnly(Seen(d)) }

  /** What may be erased. */
  predicate MayErase(s: Sys) { Adoptable(s.drive) && (Empty(s.drive) || IsInstallerGuid(s.registry, s.drive.guid)) }

  /** The registry gained at most `guid`, and only for a drive that carries it and is Baseline's or empty. */
  predicate RegistryKept(s: Sys, t: Sys, guid: string) {
    || t.registry == s.registry
    || (t.registry == s.registry + {guid} && Adoptable(t.drive) && Lower(t.drive.guid) == guid)
  }

  lemma GuidIsNotContents(a: Drive, b: Drive)
    requires SameContents(a, b)
    ensures Adoptable(a) <==> Adoptable(b)
  {
  }

  lemma AdoptSafe(s: Sys, guid: string)
    ensures var t := Adopt(s, guid).s;
            && (t.drive == s.drive || t.drive == s.drive.(guid := guid))
            && (t.registry == s.registry || (t.registry == s.registry + {guid} && Lower(t.drive.guid) == guid))
            && t.ran == s.ran + [SetGuid(guid)]
  {
    var marked := RunTool(s, SetGuid(guid));
    if !marked.Go? { return; }
    var read := Looked(marked.s);
  }

  /** All that stamping may change is a drive's identifier, only of a drive it may adopt, and it registers the new
      identifier only once the drive has been read again and carries it. */
  lemma StampSafe(s: Sys, guid: string)
    ensures var t := Stamp(s, guid).s;
            && SameContents(s.drive, t.drive)
            && (t.drive != s.drive ==> Adoptable(s.drive) && t.drive.guid == guid && t.registry - s.registry <= {guid})
            && (t.drive != s.drive ==> !IsInstallerGuid(s.registry, s.drive.guid))
            && RegistryKept(s, t, guid)
            && (t.ran == s.ran || (t.ran == s.ran + [SetGuid(guid)] && Adoptable(s.drive)))
  {
    var looked := Looked(s);
    if !looked.Go? { return; }
    AdoptSafe(looked.s, guid);
    GuidIsNotContents(s.drive, s.drive.(guid := guid));
  }

  /** No tool is started unless the drive was empty, or all Baseline's and carrying a registered identifier. */
  lemma ApplySafe(s: Sys, tags: Option<seq<string>>)
    ensures Apply(s, tags).s.registry == s.registry
    ensures Apply(s, tags).s.drive != s.drive || Apply(s, tags).s.ran != s.ran ==> MayErase(s)
    ensures Apply(s, tags).Go? ==> MayErase(s)
  {
    var t := Check(s);
    if !t.Go? { return; }
    var u := Looked(t.s);
    if !u.Go? { return; }
    var v := Looked(u.s);
    if v.Go? && tags.Some? { StepsKeepRegistry(v.s, Steps(tags.value)); }
  }

  lemma {:induction false} StepsKeepRegistry(s: Sys, steps: seq<Tool>)
    ensures RunSteps(s, steps).s.registry == s.registry
    decreases |steps|
  {
    if steps == [] { return; }
    var t := Check(s);
    if !t.Go? { return; }
    var u := RunTool(t.s, steps[0]);
    if u.Go? { StepsKeepRegistry(u.s, steps[1..]); }
  }

  lemma LayOutSafe(s: Sys, confirmed: bool, tags: Option<seq<string>>, guid: string)
    ensures var t := LayOut(s, confirmed, tags, guid).s;
            && (t.drive != s.drive || t.registry != s.registry || t.ran != s.ran ==> MayErase(s) && confirmed)
            && RegistryKept(s, t, guid)
  {
    if !confirmed { return; }
    var mounts := Check(s);
    if !mounts.Go? { return; }
    ApplySafe(mounts.s, tags);
    var applied := Apply(mounts.s, tags);
    if !applied.Go? { return; }
    var validated := Check(applied.s);
    if validated.Go? { StampSafe(validated.s, guid); }
  }

  // ----- whole runs ----------------------------------------------------------------------------------------------

  /** The step from `a` to `b` registered `guid`: for a drive that was empty or all Baseline's, and is found to carry
      it. */
  predicate Registers(a: Sys, b: Sys, guid: string) {
    && guid !in a.registry && guid in b.registry
    && Adoptable(a.drive) && Adoptable(b.drive) && Lower(b.drive.guid) == guid
  }

  lemma StepRegisters(s: Sys, op: Op, guid: string)
    requires guid in Perform(s, op).registry && guid !in s.registry
    ensures !op.Outside? && Registers(s, Perform(s, op), guid)
  {
    match op
    case StampOp(g) =>
      StampSafe(s, g);
      GuidIsNotContents(s.drive, Perform(s, op).drive);
    case LayOutOp(confirmed, tags, g) => LayOutSafe(s, confirmed, tags, g);
    case Outside(_) =>
  }

  ghost predicate RegisteredDuring(states: seq<Sys>, before: nat, guid: string)
    requires before < |states|
  { exists i | 0 <= i < before :: Registers(states[i], states[i + 1], guid) }

  /** Every registered GUID was registered by some step for a drive it was allowed to adopt. */
  lemma {:induction false} RegisteredGuidsWereAdopted(s: Sys, ops: seq<Op>, n: nat, guid: string)
    requires n <= |ops| && guid !in s.registry && guid in Run(s, ops)[n].registry
    ensures RegisteredDuring(Run(s, ops), n, guid)
    decreases ops
  {
    var states := Run(s, ops);
    assert n > 0;
    var next := Perform(s, ops[0]);
    var rest := Run(next, ops[1..]);
    assert states == [s] + rest;
    if guid in next.registry {
      StepRegisters(s, ops[0], guid);
      assert Registers(states[0], states[1], guid);
    } else {
      RegisteredGuidsWereAdopted(next, ops[1..], n - 1, guid);
      RegisteredLater(s, rest, n - 1, guid);
    }
  }

  lemma RegisteredLater(s: Sys, rest: seq<Sys>, n: nat, guid: string)
    requires n < |rest| && RegisteredDuring(rest, n, guid)
    ensures RegisteredDuring([s] + rest, n + 1, guid)
  {
    var states := [s] + rest;
    var i :| 0 <= i < n && Registers(rest[i], rest[i + 1], guid);
    assert states[i + 1] == rest[i] && states[i + 2] == rest[i + 1];
    assert Registers(states[i + 1], states[i + 1 + 1], guid);
  }

  lemma {:induction false} Stepwise(s: Sys, ops: seq<Op>, i: nat)
    requires i < |ops|
    ensures Run(s, ops)[i + 1] == Perform(Run(s, ops)[i], ops[i])
    decreases ops
  {
    if i > 0 { Stepwise(Perform(s, ops[0]), ops[1..], i - 1); }
  }

  /** Between `a` and `b` a tool was started that does more than set the identifier, or the contents changed. */
  predicate Erases(a: Sys, b: Sys) {
    || !SameContents(a.drive, b.drive)
    || !(a.ran <= b.ran)
    || exists k :: |a.ran| <= k < |b.ran| && !b.ran[k].SetGuid?
  }

  /** Whatever Baseline erases, or begins to erase, in a run that began with nothing registered was empty, or held
      nothing but Baseline's own volumes on a drive whose identifier an earlier step of the same run registered, for a
      drive that was itself empty or all Baseline's. */
  lemma ErasedDrivesWereAdopted(s: Sys, ops: seq<Op>, i: nat)
    requires s.registry == {} && i < |ops| && !ops[i].Outside?
    requires Erases(Run(s, ops)[i], Run(s, ops)[i + 1])
    ensures var before := Run(s, ops)[i].drive;
            && ops[i].LayOutOp? && ops[i].confirmed
            && (Empty(before) || (Adoptable(before) && RegisteredDuring(Run(s, ops), i, Normal(before.guid))))
  {
    Stepwise(s, ops, i);
    var before := Run(s, ops)[i];
    match ops[i]
    case StampOp(g) => StampSafe(before, g);
    case LayOutOp(confirmed, tags, g) =>
      LayOutSafe(before, confirmed, tags, g);
      if !Empty(before.drive) { RegisteredGuidsWereAdopted(s, ops, i, Normal(before.drive.guid)); }
  }

  /** A drive that holds anything else is never touched: no tool is ever started on it, and nothing is registered. */
  lemma {:induction false} ForeignDriveUntouched(s: Sys, ops: seq<Op>, i: nat)
    requires !Adoptable(s.drive) && i <= |ops| && forall op :: op in ops ==> !op.Outside?
    ensures Run(s, ops)[i].drive == s.drive && Run(s, ops)[i].registry == s.registry && Run(s, ops)[i].ran == s.ran
    decreases ops
  {
    if i == 0 { return; }
    assert ops[0] in ops;
    match ops[0]
    case StampOp(g) =>
      StampSafe(s, g);
      GuidIsNotContents(s.drive, Perform(s, ops[0]).drive);
      ForeignDriveUntouched(Perform(s, ops[0]), ops[1..], i - 1);
    case LayOutOp(confirmed, tags, g) =>
      LayOutSafe(s, confirmed, tags, g);
      ForeignDriveUntouched(Perform(s, ops[0]), ops[1..], i - 1);
    case Outside(_) =>
  }
}
