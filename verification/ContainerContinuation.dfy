/** After which interruptions a rebuild can be carried on at all, by whatever undisturbed operations. */
module ContainerContinuation {
  import opened Basics
  import opened ContainerModel
  import opened ContainerProtocol
  import opened ContainerSafety
  import opened ContainerRecovery

  /** The journal is saved and mounts of the old container are gone, but the container is not. */
  predicate Stuck(w: World) {
    BeforeDestroy(w) && w.guests[w.saved.vmid].config.mounts != OwnMounts(w.saved.name)
  }

  /** A rebuild may begin, for the first time or again. */
  predicate Rebuildable(w: World) {
    && ManagedWorld(w) && BasePresent(w) && w.saved.vmid !in w.orphans
    && !w.guests[w.saved.vmid].running && !w.guests[w.saved.vmid].config.locked
    && !w.guests[w.saved.vmid].config.template
  }

  /** A rebuild whose journal is saved and whose next call deletes the mounts. */
  predicate Begun(w: World) { BeforeDestroy(w) && Journalled(w) && Rebuildable(w) }

  /** A rebuild whose next call destroys the container. */
  predicate Emptied(w: World) {
    && Stuck(w) && Journalled(w) && w.saved.vmid !in w.orphans && w.saved.vmid != w.saved.base
    && w.guests[w.saved.vmid].config.mounts == map[] && Editable(w, w.saved.vmid)
    && !w.guests[w.saved.vmid].running
  }

  // ----- where a rebuild can stop --------------------------------------------------------------------------------

  lemma DeletingLeaves(s: Sys)
    requires Begun(s.w) && Clean(s.tape, s.w.saved.vmid)
    ensures var f, fault := DeleteMounts(s, s.w.saved.vmid), NextEvent(s).fault;
            && f.s.w.saved == s.w.saved && f.s.tape == Arrive(s).tape && Clean(f.s.tape, s.w.saved.vmid)
            && (f.Go? <==> fault.Fine?)
            && (fault.Fine? ==> Emptied(f.s.w))
            && (!fault.Fine? ==> if fault.effect.Nothing? then Begun(f.s.w) else Stuck(f.s.w))
  {
    ArriveClean(s);
    DeleteMountsClean(s);
    assert OwnMounts(s.w.saved.name).Keys == {0, 1, 2};
    assert 0 !in OwnMounts(s.w.saved.name) - {0} && 0 !in OwnMounts(s.w.saved.name) - {0, 1, 2};
  }

  lemma DestroyingLeaves(s: Sys)
    requires Emptied(s.w) && Clean(s.tape, s.w.saved.vmid)
    ensures var f, fault := Destroy(s, s.w.saved.vmid), NextEvent(s).fault;
            && f.s.w.saved == s.w.saved && Clean(f.s.tape, s.w.saved.vmid)
            && (f.Go? <==> fault.Fine?)
            && if fault.Fine? || fault.effect.Everything? then Gone(f.s.w) else Stuck(f.s.w)
  {
    ArriveClean(s);
    assert Listed(Arrive(s).w.guests[s.w.saved.vmid]) == {};
  }

  /** What the destructive half leaves, by the faults of its first two calls. */
  lemma ReplaceLeaves(s: Sys)
    requires Begun(s.w) && Clean(s.tape, s.w.saved.vmid)
    ensures var w := Replace(s, s.w.saved).s.w;
            && SameIdentity(s.w.saved, w.saved)
            && (Begun(w) || Stuck(w) || Resumable(w) || Finished(w))
            && (Stuck(w) <==> FatalNow(s))
  {
    var f1 := DeleteMounts(s, s.w.saved.vmid);
    DeletingLeaves(s);
    if f1.Go? {
      var f2 := Destroy(f1.s, s.w.saved.vmid);
      DestroyingLeaves(f1.s);
      if f2.Go? { CloneAndFinishClean(f2.s); }
    }
  }

  /** The first `n` calls go well and the next one does not. */
  predicate InterruptedAt(tape: seq<Event>, n: nat) {
    n < |tape| && !tape[n].fault.Fine? && forall i :: 0 <= i < n ==> tape[i].fault.Fine?
  }

  /** The fatal call is the one that deletes the mounts, and it deleted some; or it is the one that destroys the
      container, and it did not. */
  predicate FatalInBetween(tape: seq<Event>) {
    || (InterruptedAt(tape, 4) && !tape[4].fault.effect.Nothing?)
    || (InterruptedAt(tape, 5) && !tape[5].fault.effect.Everything?)
  }

  lemma AlikeRebuildable(w: World, w': World)
    requires Alike(w, w') && Rebuildable(w)
    ensures Rebuildable(w')
  {
  }

  predicate FineBefore(tape: seq<Event>, n: nat) { forall i :: 0 <= i < n && i < |tape| ==> tape[i].fault.Fine? }

  function Later(tape: seq<Event>, n: nat): seq<Event> { if n <= |tape| then tape[n..] else [] }

  /** The three reads of a rebuild: they change nothing, and only a fault stops them. */
  lemma ChecksPass(s: Sys) returns (t: Sys, ok: bool)
    requires Rebuildable(s.w) && Clean(s.tape, s.w.saved.vmid)
    ensures Rebuildable(t.w) && t.w.saved == s.w.saved && Clean(t.tape, s.w.saved.vmid)
    ensures Alike(s.w, t.w) && (ok <==> FineBefore(s.tape, 3)) && (ok ==> t.tape == Later(s.tape, 3))
    ensures forall token :: Rebuild(s, token) == if ok then CommitAndReplace(t, token) else Halt(t)
  {
    var f1 := Managed(s);
    ManagedClean(s);
    AlikeRebuildable(s.w, f1.s.w);
    t, ok := f1.s, false;
    if f1.Halt? { return; }
    var f2 := Status(f1.s);
    ReadClean(f1.s);
    AlikeRebuildable(f1.s.w, f2.s.w);
    t := f2.s;
    if f2.Halt? { return; }
    var f3 := Read(f2.s);
    ReadClean(f2.s);
    AlikeRebuildable(f2.s.w, f3.s.w);
    t, ok := f3.s, f3.Go?;
  }

  /** A rebuild once its checks have passed. */
  function CommitAndReplace(t: Sys, token: Token): Flow
    requires t.w.saved.base in t.w.guests
  {
    var rec := RebuildRecord(t.w, token);
    var u :- Save(t, rec);
    Replace(u, rec)
  }

  lemma CommitLeaves(t: Sys, token: Token)
    requires Rebuildable(t.w) && FreshToken(t.w, token) && Clean(t.tape, t.w.saved.vmid)
    ensures var w := CommitAndReplace(t, token).s.w;
            && SameIdentity(t.w.saved, w.saved)
            && (Rebuildable(w) || Stuck(w) || Resumable(w) || Finished(w))
            && (Stuck(w) <==> NextEvent(t).fault.Fine? && FatalNow(Arrive(t)))
  {
    var rec := RebuildRecord(t.w, token);
    var f := Save(t, rec);
    SaveClean(t, rec);
    assert Begun(t.w.(saved := rec));
    if f.Halt? { return; }
    assert Begun(f.s.w);
    ReplaceLeaves(f.s);
  }

  /** The same for a rebuild about to delete the mounts. */
  predicate FatalNow(s: Sys) {
    var first, second := NextEvent(s).fault, NextEvent(Arrive(s)).fault;
    if first.Fine? then !second.Fine? && !second.effect.Everything? else !first.effect.Nothing?
  }

  /** What a cleanly interrupted rebuild leaves, and exactly when it is stuck. */
  lemma RebuildLeaves(s: Sys, token: Token)
    requires Rebuildable(s.w) && FreshToken(s.w, token) && Clean(s.tape, s.w.saved.vmid)
    ensures var w := Rebuild(s, token).s.w;
            && SameIdentity(s.w.saved, w.saved)
            && (Rebuildable(w) || Stuck(w) || Resumable(w) || Finished(w))
            && (Stuck(w) <==> FatalInBetween(s.tape))
  {
    var t, ok := ChecksPass(s);
    if ok {
      CommitLeaves(t, token);
      FatalLater(s.tape, t);
    }
  }

  lemma FatalLater(tape: seq<Event>, t: Sys)
    requires FineBefore(tape, 3) && t.tape == Later(tape, 3)
    ensures NextEvent(t).fault.Fine? && FatalNow(Arrive(t)) <==> FatalInBetween(tape)
  {
  }

  // ----- every clean history -------------------------------------------------------------------------------------

  /** No OS volume without its guest, and none to come. */
  predicate Tidy(s: Sys) { s.w.saved.vmid !in s.w.orphans && Clean(s.tape, s.w.saved.vmid) }

  /** One call of an operation for this record keeps things tidy. */
  predicate KeepsTidy(s: Sys, t: Sys) { Tidy(s) ==> Tidy(t) && t.w.saved.vmid == s.w.saved.vmid }

  lemma ReadTidy(s: Sys)
    ensures KeepsTidy(s, Read(s).s)
  {
  }

  lemma SaveTidy(s: Sys, rec: Record)
    requires rec.vmid == s.w.saved.vmid
    ensures KeepsTidy(s, Save(s, rec).s)
  {
  }

  lemma SetTidy(s: Sys, rec: Record)
    ensures KeepsTidy(s, DeleteMounts(s, rec.vmid).s) && KeepsTidy(s, Configure(s, rec).s)
  {
  }

  lemma MakeTidy(s: Sys, rec: Record)
    ensures KeepsTidy(s, Destroy(s, rec.vmid).s) && KeepsTidy(s, Clone(s, rec).s)
  {
  }

  lemma SwitchTidy(s: Sys, id: VmId, on: bool)
    ensures KeepsTidy(s, SetRunning(s, id, on).s) && KeepsTidy(s, Status(s).s)
  {
  }

  lemma PasswordTidy(s: Sys, id: VmId)
    ensures KeepsTidy(s, SetPassword(s, id).s)
  {
    var arrived := Arrive(s);
    SwitchTidy(Noted(arrived, ExecVerb, id, id in arrived.w.guests && arrived.w.guests[id].running), id, false);
  }

  lemma LogInTidy(s: Sys, r: Record)
    requires r.vmid == s.w.saved.vmid && Tidy(s)
    ensures KeepsTidy(s, LogInAndCommit(s, r).s)
  {
    var f1 := SetPassword(s, r.vmid);
    PasswordTidy(s, r.vmid);
    if f1.Halt? { return; }
    var f2 := Status(f1.s);
    SwitchTidy(f1.s, r.vmid, true);
    if f2.Halt? || !Running(f2.s.w, r.vmid) { return; }
    SaveTidy(f2.s, r.(phase := Ready));
  }

  lemma FinishTidy(s: Sys, rec: Record)
    requires rec.vmid == s.w.saved.vmid && Tidy(s)
    ensures KeepsTidy(s, FinishClone(s, rec).s)
  {
    var r := if rec.token.Some? then rec.(phase := Configuring) else rec;
    var f1 := if rec.token.Some? then Save(s, r) else Go(s);
    SaveTidy(s, r);
    if f1.Halt? { return; }
    var f2 := Configure(f1.s, r);
    SetTidy(f1.s, r);
    if f2.Halt? { return; }
    var f3 := SetRunning(f2.s, r.vmid, true);
    SwitchTidy(f2.s, r.vmid, true);
    if f3.Halt? { return; }
    LogInTidy(f3.s, r);
  }

  lemma CloneTidy(s: Sys, rec: Record)
    requires rec.vmid == s.w.saved.vmid && Tidy(s)
    ensures KeepsTidy(s, CloneAndFinish(s, rec).s)
  {
    var r := if rec.token.Some? then rec.(phase := Cloning) else rec;
    var f1 := if rec.token.Some? then Save(s, r) else Go(s);
    SaveTidy(s, r);
    if f1.Halt? { return; }
    var f2 := Clone(f1.s, r);
    MakeTidy(f1.s, r);
    if f2.Halt? { return; }
    FinishTidy(f2.s, r);
  }

  lemma ReplaceTidy(s: Sys, rec: Record)
    requires rec.vmid == s.w.saved.vmid && Tidy(s)
    ensures KeepsTidy(s, Replace(s, rec).s)
  {
    var f1 := DeleteMounts(s, rec.vmid);
    SetTidy(s, rec);
    if f1.Halt? { return; }
    var f2 := Destroy(f1.s, rec.vmid);
    MakeTidy(f1.s, rec);
    if f2.Halt? { return; }
    CloneTidy(f2.s, rec);
  }

  lemma RebuildTidy(s: Sys, token: Token)
    requires Tidy(s)
    ensures KeepsTidy(s, Rebuild(s, token).s)
  {
    var f1 := Managed(s);
    ReadTidy(s);
    if f1.Halt? { return; }
    var f2 := Status(f1.s);
    SwitchTidy(f1.s, 0, true);
    if f2.Halt? || Running(f2.s.w, f2.s.w.saved.vmid) { return; }
    var f3 := Read(f2.s);
    ReadTidy(f2.s);
    if f3.Halt? || !BasePresent(f3.s.w) { return; }
    var rec := RebuildRecord(f3.s.w, token);
    var f4 := Save(f3.s, rec);
    SaveTidy(f3.s, rec);
    if f4.Halt? { return; }
    ReplaceTidy(f4.s, rec);
  }

  lemma RecoverTidy(s: Sys)
    requires Tidy(s)
    ensures KeepsTidy(s, Recover(s).s)
  {
    InspectClean(s);
    var f := Inspect(s);
    if f.Halt? { return; }
    if FoundAbsent(s) { CloneTidy(f.s, f.s.w.saved); } else { FinishTidy(f.s, f.s.w.saved); }
  }

  lemma StartTidy(s: Sys)
    requires Tidy(s)
    ensures KeepsTidy(s, Start(s).s)
  {
    var f := Managed(s);
    ReadTidy(s);
    if f.Halt? { return; }
    SwitchTidy(f.s, f.s.w.saved.vmid, true);
    SwitchTidy(SetRunning(f.s, f.s.w.saved.vmid, true).s, 0, true);
  }

  lemma ShutdownTidy(s: Sys)
    requires Tidy(s)
    ensures KeepsTidy(s, Shutdown(s).s)
  {
    var f := Managed(s);
    ReadTidy(s);
    if f.Halt? { return; }
    SwitchTidy(f.s, f.s.w.saved.vmid, false);
    SwitchTidy(SetRunning(f.s, f.s.w.saved.vmid, false).s, 0, true);
  }

  lemma PerformTidy(s: Sys, op: Op)
    requires Tidy(s)
    ensures KeepsTidy(s, Perform(s, op).s)
  {
    match op
    case DoRebuild(token) => RebuildTidy(s, token);
    case DoRecover => RecoverTidy(s);
    case DoStart => StartTidy(s);
    case DoShutdown => ShutdownTidy(s);
  }

  /** The container is finished, or its rebuild can begin again, or recovery can go on. */
  predicate Open(w: World) { w.saved.vmid !in w.orphans && (Rebuildable(w) || Resumable(w) || Settled(w)) }

  lemma AlikeOpen(w: World, w': World)
    requires Alike(w, w') && Open(w)
    ensures Open(w') && SameIdentity(w.saved, w'.saved)
  {
  }

  lemma RefusedRebuild(s: Sys, token: Token)
    requires Open(s.w) && !Rebuildable(s.w) && Clean(s.tape, s.w.saved.vmid)
    ensures Alike(s.w, Rebuild(s, token).s.w)
  {
    var f1 := Managed(s);
    ManagedClean(s);
    if f1.Halt? { return; }
    assert Running(f1.s.w, f1.s.w.saved.vmid);
    ReadClean(f1.s);
  }

  /** What is neither finished nor resumable is not touched but by a rebuild. */
  lemma RefusedRetry(s: Sys, r: Retry)
    requires Rebuildable(s.w) && !Resumable(s.w) && !Settled(s.w) && Clean(s.tape, s.w.saved.vmid)
    ensures Alike(s.w, Perform(s, AsOp(r)).s.w)
  {
    var f1 := Managed(s);
    ManagedClean(s);
    match r
    case TryRecover => InspectClean(s);
    case TryStart => assert s.w.saved.phase != Ready;
    case TryShutdown => if f1.Go? { ArriveClean(f1.s); }
  }

  function AsRetry(op: Op): Retry
    requires !op.DoRebuild?
  { match op case DoRecover => TryRecover case DoStart => TryStart case DoShutdown => TryShutdown }

  /** One operation, with any clean interruption. */
  lemma OpenKept(s: Sys, op: Op)
    requires Open(s.w) && Clean(s.tape, s.w.saved.vmid)
    requires op.DoRebuild? ==> FreshToken(s.w, op.token)
    ensures Open(Perform(s, op).s.w) || Stuck(Perform(s, op).s.w)
    ensures SameIdentity(s.w.saved, Perform(s, op).s.w.saved)
  {
    PerformTidy(s, op);
    if op.DoRebuild? {
      if Rebuildable(s.w) {
        RebuildLeaves(s, op.token);
      } else {
        RefusedRebuild(s, op.token);
        AlikeOpen(s.w, Rebuild(s, op.token).s.w);
      }
    } else {
      var r := AsRetry(op);
      assert AsOp(r) == op;
      if Resumable(s.w) || Settled(s.w) {
        RetryClean(s, r);
      } else {
        RefusedRetry(s, r);
        AlikeOpen(s.w, Perform(s, op).s.w);
      }
    }
  }

  /** A history in which no clone or destroy is torn, nobody takes this id, and rebuilds draw tokens not used yet. */
  predicate CleanHistory(w: World, ops: seq<(Op, seq<Event>)>)
    decreases |ops|
  {
    ops == []
    || (&& Clean(ops[0].1, w.saved.vmid)
        && (ops[0].0.DoRebuild? ==> FreshToken(w, ops[0].0.token))
        && CleanHistory(Perform(Sys(w, ops[0].1), ops[0].0).s.w, ops[1..]))
  }

  /** Stuck is for good: no history, clean or not, changes the record or the container. */
  lemma {:induction false} StuckForever(w: World, ops: seq<(Op, seq<Event>)>)
    requires Stuck(w)
    ensures Stuck(History(w, ops)) && OnlyArrivals(w, History(w, ops))
    decreases |ops|
  {
    if ops != [] {
      var next := Perform(Sys(w, ops[0].1), ops[0].0).s.w;
      DeletedMountsNeedInspection(Sys(w, ops[0].1), ops[0].0);
      StuckForever(next, ops[1..]);
    }
  }

  lemma {:induction false} HistoryOpen(w: World, ops: seq<(Op, seq<Event>)>)
    requires Open(w) && CleanHistory(w, ops)
    ensures Open(History(w, ops)) || Stuck(History(w, ops))
    ensures SameIdentity(w.saved, History(w, ops).saved)
    decreases |ops|
  {
    if ops != [] {
      var next := Perform(Sys(w, ops[0].1), ops[0].0).s.w;
      OpenKept(Sys(w, ops[0].1), ops[0].0);
      if Stuck(next) { StuckForever(next, ops[1..]); } else { HistoryOpen(next, ops[1..]); }
    }
  }

  // ----- carrying on ---------------------------------------------------------------------------------------------

  predicate Undisturbed(ops: seq<(Op, seq<Event>)>) { forall i :: 0 <= i < |ops| ==> ops[i].1 == [] }

  /** Some undisturbed operations end with the same container finished and running. */
  ghost predicate CanBeFinished(w: World) {
    exists ops :: Undisturbed(ops) && Finished(History(w, ops)) && SameIdentity(w.saved, History(w, ops).saved)
  }

  lemma NothingToDo(w: World)
    requires Finished(w)
    ensures CanBeFinished(w)
  {
    assert Undisturbed([]) && History(w, []) == w;
  }

  lemma OneMore(w: World, op: Op)
    requires var next := Perform(Sys(w, []), op).s.w; CanBeFinished(next) && SameIdentity(w.saved, next.saved)
    ensures CanBeFinished(w)
  {
    var next := Perform(Sys(w, []), op).s.w;
    var ops :| Undisturbed(ops) && Finished(History(next, ops)) && SameIdentity(next.saved, History(next, ops).saved);
    HistoryFirst(w, op, ops);
    var all: seq<(Op, seq<Event>)> := [(op, [])] + ops;
    assert forall i :: 0 < i < |all| ==> all[i] == ops[i - 1];
    assert Undisturbed(all);
  }

  lemma HistoryFirst(w: World, op: Op, ops: seq<(Op, seq<Event>)>)
    ensures History(w, [(op, [])] + ops) == History(Perform(Sys(w, []), op).s.w, ops)
  {
    assert ([(op, [])] + ops)[1..] == ops;
  }

  lemma RebuildableFinishes(w: World)
    requires Rebuildable(w)
    ensures CanBeFinished(w)
  {
    QuietRebuild(w, "");
    NothingToDo(Perform(Sys(w, []), DoRebuild("")).s.w);
    OneMore(w, DoRebuild(""));
  }

  lemma RecoveryFinishes(w: World)
    requires Gone(w) || Cloned(w)
    ensures CanBeFinished(w)
  {
    RecoverExactly(w, []);
    RecoverClean(Sys(w, []));
    NothingToDo(Perform(Sys(w, []), DoRecover).s.w);
    OneMore(w, DoRecover);
  }

  lemma LiveFinishes(w: World)
    requires Live(w)
    ensures CanBeFinished(w)
  {
    QuietShutdown(w);
    RecoveryFinishes(Perform(Sys(w, []), DoShutdown).s.w);
    OneMore(w, DoShutdown);
  }

  lemma OpenFinishes(w: World)
    requires Open(w)
    ensures CanBeFinished(w)
  {
    if Finished(w) { NothingToDo(w); }
    else if Live(w) { LiveFinishes(w); }
    else if Resumable(w) { RecoveryFinishes(w); }
    else { RebuildableFinishes(w); }
  }

  /** Main theorem: after every clean history of a finished container, however its operations were interrupted, some
      undisturbed operations finish the container again, if and only if it does not stand with mounts deleted under a
      saved journal. */
  lemma HistoryFinishesExactly(w: World, ops: seq<(Op, seq<Event>)>)
    requires Settled(w) && w.saved.vmid !in w.orphans && CleanHistory(w, ops)
    ensures SameIdentity(w.saved, History(w, ops).saved)
    ensures CanBeFinished(History(w, ops)) <==> !Stuck(History(w, ops))
  {
    var end := History(w, ops);
    HistoryOpen(w, ops);
    if Stuck(end) {
      forall more ensures !Finished(History(end, more)) { StuckForever(end, more); }
    } else {
      OpenFinishes(end);
    }
  }

  /** For one rebuild of a stopped container: if and only if its fatal call was neither a deletion of the mounts that
      deleted some nor a destroy that did not destroy. */
  lemma RebuildFinishesExactly(s: Sys, token: Token)
    requires Settled(s.w) && s.w.saved.vmid !in s.w.orphans && !Running(s.w, s.w.saved.vmid)
    requires FreshToken(s.w, token) && Clean(s.tape, s.w.saved.vmid)
    ensures CanBeFinished(Rebuild(s, token).s.w) <==> !FatalInBetween(s.tape)
  {
    assert Rebuildable(s.w);
    RebuildLeaves(s, token);
    PerformTidy(s, DoRebuild(token));
    var end := Rebuild(s, token).s.w;
    if Stuck(end) {
      forall more ensures !Finished(History(end, more)) { StuckForever(end, more); }
    } else {
      OpenFinishes(end);
    }
  }

  // ----- for instance --------------------------------------------------------------------------------------------

  const BASE: Guest :=
    Guest(Lxc, Config(BaseOf(100), true, true, false, NoNote, map[], false, false, Disk("os", BaseDisk, 100), 512, 1),
          false, Baseline)
  const DEV: Guest :=
    Guest(Lxc, Config(Named("dev"), true, false, false, NoNote, OwnMounts("dev"), false, false,
                      Disk("os", VmDisk, 101), 512, 1), false, Baseline)
  const STOPPED: World :=
    World(Record("dev", 101, 100, "os", 512, 1, Ready, None, None), map[100 := BASE, 101 := DEV], {}, ALL_AREAS)
  const KILLED_AT_DESTROY: seq<Event> := [QUIET, QUIET, QUIET, QUIET, QUIET, Event(map[], Killed(Nothing))]

  /** A stopped container whose rebuild dies when it is about to be destroyed can never be finished. */
  lemma KilledAtDestroyIsStuck(token: Token)
    ensures Settled(STOPPED) && STOPPED.saved.vmid !in STOPPED.orphans && FreshToken(STOPPED, token)
    ensures var end := Rebuild(Sys(STOPPED, KILLED_AT_DESTROY), token).s.w; Stuck(end) && !CanBeFinished(end)
  {
    var tape := KILLED_AT_DESTROY;
    assert Clean(tape, 101) && InterruptedAt(tape, 5) && !tape[5].fault.effect.Everything?;
    assert Rebuildable(STOPPED);
    RebuildLeaves(Sys(STOPPED, tape), token);
    RebuildFinishesExactly(Sys(STOPPED, tape), token);
  }
}
