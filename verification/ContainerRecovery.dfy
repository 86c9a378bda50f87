/** Crash-point completeness: from which worlds recovery finishes a rebuild, and that every cleanly interrupted
    rebuild ends in a world that is either untouched, refused, or finished by the documented retries. */
module ContainerRecovery {
  import opened Basics
  import opened ContainerModel
  import opened ContainerProtocol
  import opened ContainerSafety

  // ----- where an interrupted rebuild can stand ------------------------------------------------------------------

  /** The old OS is destroyed and nothing has taken its place. */
  predicate Gone(w: World) { Journalled(w) && w.saved.vmid !in w.guests && w.saved.vmid !in w.orphans }

  /** A stopped clone that the journal's token proves to be ours. */
  predicate Cloned(w: World) {
    Journalled(w) && w.saved.vmid in w.guests && PartialClone(w.saved, w.guests[w.saved.vmid])
  }

  /** The new container runs, but its record does not say `ready` yet. */
  predicate Live(w: World) {
    && Journalled(w)
    && ManagedWorld(w)
    && w.guests[w.saved.vmid].running
    && PartialClone(w.saved, w.guests[w.saved.vmid].(running := false))
  }

  predicate Resumable(w: World) { Gone(w) || Cloned(w) || Live(w) }

  predicate Settled(w: World) {
    && ManagedWorld(w)
    && BasePresent(w)
    && w.saved.phase == Ready
    && !w.guests[w.saved.vmid].config.locked
    && !w.guests[w.saved.vmid].config.template
  }

  predicate Finished(w: World) { Settled(w) && Running(w, w.saved.vmid) }

  /** The journal is saved but the old container is still there: its note is not the fresh token. */
  predicate BeforeDestroy(w: World) {
    && w.saved.phase == Rebuilding
    && w.saved.token.Some?
    && w.saved.vmid in w.guests
    && w.guests[w.saved.vmid].config.note != Recovery(w.saved.token.value)
  }

  /** No clone or destroy is torn, and nobody else asks for this id; a `pct set` may be interrupted half-way. */
  predicate Clean(tape: seq<Event>, id: VmId) {
    forall i :: 0 <= i < |tape| ==>
      id !in tape[i].arrivals && (tape[i].fault.Fine? || !tape[i].fault.effect.Torn?)
  }

  // ----- recovery without faults: exactly when it works ----------------------------------------------------------

  lemma QuietArrive(w: World, log: seq<Mark>)
    ensures Arrive(Sys(w, [], log)) == Sys(w, [], log)
  {
    assert Newcomers(w, map[]) == map[];
    assert w.guests + map[] == w.guests;
  }

  lemma QuietFinish(w: World, log: seq<Mark>)
    requires Cloned(w)
    ensures FinishClone(Sys(w, [], log), w.saved).Go?
    ensures FinishClone(Sys(w, [], log), w.saved).s.tape == []
    ensures Finished(FinishClone(Sys(w, [], log), w.saved).s.w)
    ensures OldOneGone(FinishClone(Sys(w, [], log), w.saved).s.w, w.saved.token.value)
  {
    var id := w.saved.vmid;
    var r := w.saved.(phase := Configuring);
    QuietArrive(w, log);
    var w1 := w.(saved := r);
    QuietArrive(w1, log);
    var g := w.guests[id];
    assert g.config.mounts + OwnMounts(r.name) == OwnMounts(r.name);
    var s2 := Configure(Sys(w1, [], log), r).s;
    QuietArrive(s2.w, s2.log);
    var s3 := SetRunning(s2, id, true).s;
    QuietArrive(s3.w, s3.log);
    var s4 := SetPassword(s3, id).s;
    QuietArrive(s4.w, s4.log);
  }

  lemma QuietClone(w: World, log: seq<Mark>)
    requires Journalled(w) && w.saved.vmid !in w.guests
    ensures CloneAndFinish(Sys(w, [], log), w.saved).Go?
    ensures Finished(CloneAndFinish(Sys(w, [], log), w.saved).s.w)
    ensures OldOneGone(CloneAndFinish(Sys(w, [], log), w.saved).s.w, w.saved.token.value)
  {
    var r := w.saved.(phase := Cloning);
    QuietArrive(w, log);
    var w1 := w.(saved := r);
    QuietArrive(w1, log);
    var s2 := Clone(Sys(w1, [], log), r).s;
    QuietFinish(s2.w, s2.log);
  }

  /** Fault-free recovery succeeds exactly from a world whose journal is intact and whose id is either free with no
      leftover volume or held by a stopped clone carrying the journal's token. Otherwise it changes nothing. */
  lemma RecoverExactly(w: World, log: seq<Mark>)
    ensures Recover(Sys(w, [], log)).Go? <==> Gone(w) || Cloned(w)
    ensures Recover(Sys(w, [], log)).Go? ==> Finished(Recover(Sys(w, [], log)).s.w)
    ensures Recover(Sys(w, [], log)).Halt? ==> Recover(Sys(w, [], log)).s == Sys(w, [], log)
  {
    QuietArrive(w, log);
    if Gone(w) {
      QuietClone(w, log);
    } else if Cloned(w) {
      QuietFinish(w, log);
    }
  }

  // ----- clean interruptions -------------------------------------------------------------------------------------

  /** The parts of the world every class above depends on. */
  predicate Alike(w: World, w': World) {
    && w'.saved == w.saved && w'.retained == w.retained && w'.orphans == w.orphans
    && (w.saved.vmid in w.guests <==> w.saved.vmid in w'.guests)
    && (w.saved.vmid in w.guests ==> w'.guests[w.saved.vmid] == w.guests[w.saved.vmid])
    && (w.saved.base in w.guests ==> w.saved.base in w'.guests && w'.guests[w.saved.base] == w.guests[w.saved.base])
  }

  lemma ArriveClean(s: Sys)
    requires Clean(s.tape, s.w.saved.vmid)
    ensures Alike(s.w, Arrive(s).w) && Clean(Arrive(s).tape, s.w.saved.vmid)
  {
  }

  lemma ReadClean(s: Sys)
    requires Clean(s.tape, s.w.saved.vmid)
    ensures Alike(s.w, Read(s).s.w) && Clean(Read(s).s.tape, s.w.saved.vmid)
  {
    ArriveClean(s);
  }

  lemma SaveClean(s: Sys, rec: Record)
    requires Clean(s.tape, s.w.saved.vmid) && SameIdentity(s.w.saved, rec)
    ensures Clean(Save(s, rec).s.tape, s.w.saved.vmid)
    ensures Alike(s.w, Save(s, rec).s.w) || Alike(s.w.(saved := rec), Save(s, rec).s.w)
    ensures Save(s, rec).Go? ==> Alike(s.w.(saved := rec), Save(s, rec).s.w)
  {
    ArriveClean(s);
  }

  lemma ConfigureClean(s: Sys, rec: Record)
    requires Cloned(s.w) && rec == s.w.saved && Clean(s.tape, rec.vmid)
    ensures Cloned(Configure(s, rec).s.w) && Clean(Configure(s, rec).s.tape, rec.vmid)
    ensures SameIdentity(rec, Configure(s, rec).s.w.saved)
    ensures Configure(s, rec).Go? ==> ManagedWorld(Configure(s, rec).s.w) && Configure(s, rec).s.w.saved == rec
  {
    ArriveClean(s);
    var g := s.w.guests[rec.vmid];
    assert g.config.mounts + OwnMounts(rec.name) == OwnMounts(rec.name);
  }

  lemma StartClean(s: Sys)
    requires Cloned(s.w) && ManagedWorld(s.w) && Clean(s.tape, s.w.saved.vmid)
    ensures Clean(SetRunning(s, s.w.saved.vmid, true).s.tape, s.w.saved.vmid)
    ensures Resumable(SetRunning(s, s.w.saved.vmid, true).s.w)
    ensures SetRunning(s, s.w.saved.vmid, true).s.w.saved == s.w.saved
    ensures SetRunning(s, s.w.saved.vmid, true).Go? ==> Live(SetRunning(s, s.w.saved.vmid, true).s.w)
  {
    ArriveClean(s);
    var g := s.w.guests[s.w.saved.vmid];
    assert g.(running := true).(running := false) == g;
  }

  lemma StopClean(s: Sys)
    requires Live(s.w) && Clean(s.tape, s.w.saved.vmid)
    ensures Clean(SetRunning(s, s.w.saved.vmid, false).s.tape, s.w.saved.vmid)
    ensures Resumable(SetRunning(s, s.w.saved.vmid, false).s.w)
    ensures SetRunning(s, s.w.saved.vmid, false).s.w.saved == s.w.saved
    ensures SetRunning(s, s.w.saved.vmid, false).Go? ==> Cloned(SetRunning(s, s.w.saved.vmid, false).s.w)
  {
    ArriveClean(s);
  }

  lemma PasswordClean(s: Sys)
    requires Live(s.w) && Clean(s.tape, s.w.saved.vmid)
    ensures Clean(SetPassword(s, s.w.saved.vmid).s.tape, s.w.saved.vmid)
    ensures Resumable(SetPassword(s, s.w.saved.vmid).s.w)
    ensures SetPassword(s, s.w.saved.vmid).s.w.saved == s.w.saved
    ensures SetPassword(s, s.w.saved.vmid).Go? ==> Live(SetPassword(s, s.w.saved.vmid).s.w)
  {
    ArriveClean(s);
    assert Live(Arrive(s).w);
    StopClean(Arrive(s));
  }

  lemma LogInClean(s: Sys)
    requires Live(s.w) && Clean(s.tape, s.w.saved.vmid)
    ensures Resumable(LogInAndCommit(s, s.w.saved).s.w) || Finished(LogInAndCommit(s, s.w.saved).s.w)
    ensures SameIdentity(s.w.saved, LogInAndCommit(s, s.w.saved).s.w.saved)
  {
    var f1 := SetPassword(s, s.w.saved.vmid);
    PasswordClean(s);
    if f1.Halt? { return; }
    var f2 := Status(f1.s);
    ReadClean(f1.s);
    assert Live(f2.s.w);
    if f2.Halt? { return; }
    var done := s.w.saved.(phase := Ready);
    SaveClean(f2.s, done);
    assert Finished(f2.s.w.(saved := done));
  }

  lemma FinishCloneClean(s: Sys)
    requires Cloned(s.w) && Clean(s.tape, s.w.saved.vmid)
    ensures Resumable(FinishClone(s, s.w.saved).s.w) || Finished(FinishClone(s, s.w.saved).s.w)
    ensures SameIdentity(s.w.saved, FinishClone(s, s.w.saved).s.w.saved)
  {
    var r := s.w.saved.(phase := Configuring);
    var f1 := Save(s, r);
    SaveClean(s, r);
    assert Cloned(s.w.(saved := r));
    assert Cloned(f1.s.w);
    if f1.Halt? { return; }
    var f2 := Configure(f1.s, r);
    ConfigureClean(f1.s, r);
    if f2.Halt? { return; }
    var f3 := SetRunning(f2.s, r.vmid, true);
    StartClean(f2.s);
    if f3.Halt? { return; }
    LogInClean(f3.s);
  }

  lemma CloneAndFinishClean(s: Sys)
    requires Gone(s.w) && Clean(s.tape, s.w.saved.vmid)
    ensures Resumable(CloneAndFinish(s, s.w.saved).s.w) || Finished(CloneAndFinish(s, s.w.saved).s.w)
    ensures SameIdentity(s.w.saved, CloneAndFinish(s, s.w.saved).s.w.saved)
  {
    var r := s.w.saved.(phase := Cloning);
    var f1 := Save(s, r);
    SaveClean(s, r);
    assert Gone(s.w.(saved := r));
    assert Gone(f1.s.w);
    if f1.Halt? { return; }
    var f2 := Clone(f1.s, r);
    CloneClean(f1.s, r);
    if f2.Halt? { return; }
    FinishCloneClean(f2.s);
  }

  lemma CloneClean(s: Sys, r: Record)
    requires Gone(s.w) && s.w.saved == r && r.phase == Cloning && Clean(s.tape, r.vmid)
    ensures Gone(Clone(s, r).s.w) || Cloned(Clone(s, r).s.w)
    ensures Clone(s, r).s.w.saved == r
    ensures Clone(s, r).Go? ==> Cloned(Clone(s, r).s.w) && Clean(Clone(s, r).s.tape, r.vmid)
  {
    ArriveClean(s);
  }

  lemma InspectClean(s: Sys)
    requires Clean(s.tape, s.w.saved.vmid)
    ensures Alike(s.w, Inspect(s).s.w) && Clean(Inspect(s).s.tape, s.w.saved.vmid)
    ensures Inspect(s).Go? ==> if FoundAbsent(s) then Gone(Inspect(s).s.w) else Cloned(Inspect(s).s.w)
  {
    var f1 := Read(s);
    ReadClean(s);
    if f1.Halt? || !Journalled(f1.s.w) { return; }
    var f2 := Read(f1.s);
    ReadClean(f1.s);
    if f2.Halt? { return; }
    ReadClean(f2.s);
  }

  lemma RecoverClean(s: Sys)
    requires Resumable(s.w) || Settled(s.w)
    requires Clean(s.tape, s.w.saved.vmid)
    ensures Resumable(Recover(s).s.w) || Settled(Recover(s).s.w)
    ensures SameIdentity(s.w.saved, Recover(s).s.w.saved)
  {
    var f := Inspect(s);
    InspectClean(s);
    if f.Halt? { return; }
    if FoundAbsent(s) {
      CloneAndFinishClean(f.s);
    } else {
      FinishCloneClean(f.s);
    }
  }

  lemma ManagedClean(s: Sys)
    requires Clean(s.tape, s.w.saved.vmid)
    ensures Alike(s.w, Managed(s).s.w) && Clean(Managed(s).s.tape, s.w.saved.vmid)
    ensures Managed(s).Go? ==> ManagedWorld(s.w)
  {
    ReadClean(s);
  }

  /** Switching a finished container on or off leaves it finished. */
  lemma SwitchSettled(s: Sys, on: bool)
    requires Settled(s.w) && Clean(s.tape, s.w.saved.vmid)
    ensures Settled(SetRunning(s, s.w.saved.vmid, on).s.w)
    ensures Clean(SetRunning(s, s.w.saved.vmid, on).s.tape, s.w.saved.vmid)
    ensures SetRunning(s, s.w.saved.vmid, on).s.w.saved == s.w.saved
  {
    ArriveClean(s);
  }

  lemma StartAgainClean(s: Sys)
    requires Resumable(s.w) || Settled(s.w)
    requires Clean(s.tape, s.w.saved.vmid)
    ensures Resumable(Start(s).s.w) || Settled(Start(s).s.w)
    ensures SameIdentity(s.w.saved, Start(s).s.w.saved)
  {
    var f1 := Managed(s);
    ManagedClean(s);
    if f1.Halt? || f1.s.w.saved.phase != Ready { return; }
    assert Settled(f1.s.w);
    SwitchSettled(f1.s, true);
    ReadClean(SetRunning(f1.s, s.w.saved.vmid, true).s);
  }

  lemma ShutdownClean(s: Sys)
    requires Resumable(s.w) || Settled(s.w)
    requires Clean(s.tape, s.w.saved.vmid)
    ensures Resumable(Shutdown(s).s.w) || Settled(Shutdown(s).s.w)
    ensures SameIdentity(s.w.saved, Shutdown(s).s.w.saved)
  {
    var f1 := Managed(s);
    ManagedClean(s);
    if f1.Halt? { return; }
    var f2 := SetRunning(f1.s, s.w.saved.vmid, false);
    if Settled(f1.s.w) {
      SwitchSettled(f1.s, false);
    } else if Live(f1.s.w) {
      StopClean(f1.s);
    } else {
      assert Cloned(f1.s.w);
      ArriveClean(f1.s);
    }
    ReadClean(f2.s);
  }

  /** What an operator does after a crash. */
  datatype Retry = TryRecover | TryStart | TryShutdown

  function AsOp(r: Retry): Op {
    match r
    case TryRecover => DoRecover
    case TryStart => DoStart
    case TryShutdown => DoShutdown
  }

  function Retries(w: World, tries: seq<(Retry, seq<Event>)>): World
    decreases |tries|
  {
    if tries == [] then w else Retries(Perform(Sys(w, tries[0].1), AsOp(tries[0].0)).s.w, tries[1..])
  }

  predicate AllClean(tries: seq<(Retry, seq<Event>)>, id: VmId) {
    forall i :: 0 <= i < |tries| ==> Clean(tries[i].1, id)
  }

  lemma RetryClean(s: Sys, r: Retry)
    requires Resumable(s.w) || Settled(s.w)
    requires Clean(s.tape, s.w.saved.vmid)
    ensures Resumable(Perform(s, AsOp(r)).s.w) || Settled(Perform(s, AsOp(r)).s.w)
    ensures SameIdentity(s.w.saved, Perform(s, AsOp(r)).s.w.saved)
  {
    match r
    case TryRecover => RecoverClean(s);
    case TryStart => StartAgainClean(s);
    case TryShutdown => ShutdownClean(s);
  }

  lemma {:induction false} RetriesClean(w: World, tries: seq<(Retry, seq<Event>)>)
    requires Resumable(w) || Settled(w)
    requires AllClean(tries, w.saved.vmid)
    ensures Resumable(Retries(w, tries)) || Settled(Retries(w, tries))
    ensures SameIdentity(w.saved, Retries(w, tries).saved)
    decreases |tries|
  {
    if tries == [] {
    } else {
      var next := Perform(Sys(w, tries[0].1), AsOp(tries[0].0)).s.w;
      RetryClean(Sys(w, tries[0].1), tries[0].0);
      RetriesClean(next, tries[1..]);
    }
  }

  // ----- the rebuild itself --------------------------------------------------------------------------------------

  lemma DeleteMountsClean(s: Sys)
    requires BeforeDestroy(s.w) && Journalled(s.w) && ManagedWorld(s.w) && Clean(s.tape, s.w.saved.vmid)
    ensures Clean(DeleteMounts(s, s.w.saved.vmid).s.tape, s.w.saved.vmid)
    ensures DeleteMounts(s, s.w.saved.vmid).s.w.saved == s.w.saved
    ensures DeleteMounts(s, s.w.saved.vmid).s.w.orphans == s.w.orphans
    ensures BeforeDestroy(DeleteMounts(s, s.w.saved.vmid).s.w) && Journalled(DeleteMounts(s, s.w.saved.vmid).s.w)
    ensures DeleteMounts(s, s.w.saved.vmid).Go? ==>
              DeleteMounts(s, s.w.saved.vmid).s.w.guests[s.w.saved.vmid].config.mounts == map[]
  {
    ArriveClean(s);
    assert OwnMounts(s.w.saved.name).Keys == {0, 1, 2};
  }

  lemma DestroyClean(s: Sys)
    requires BeforeDestroy(s.w) && Journalled(s.w) && s.w.saved.vmid !in s.w.orphans
    requires s.w.guests[s.w.saved.vmid].config.mounts == map[]
    requires s.w.saved.vmid != s.w.saved.base
    requires Clean(s.tape, s.w.saved.vmid)
    ensures Clean(Destroy(s, s.w.saved.vmid).s.tape, s.w.saved.vmid)
    ensures Destroy(s, s.w.saved.vmid).s.w.saved == s.w.saved
    ensures BeforeDestroy(Destroy(s, s.w.saved.vmid).s.w) || Gone(Destroy(s, s.w.saved.vmid).s.w)
    ensures Destroy(s, s.w.saved.vmid).Go? ==> Gone(Destroy(s, s.w.saved.vmid).s.w)
  {
    ArriveClean(s);
    assert Listed(Arrive(s).w.guests[s.w.saved.vmid]) == {};
  }

  lemma ReplaceClean(s: Sys)
    requires BeforeDestroy(s.w) && Journalled(s.w) && ManagedWorld(s.w) && s.w.saved.vmid !in s.w.orphans
    requires Clean(s.tape, s.w.saved.vmid)
    ensures BeforeDestroy(Replace(s, s.w.saved).s.w) || Resumable(Replace(s, s.w.saved).s.w)
            || Finished(Replace(s, s.w.saved).s.w)
    ensures BeforeDestroy(Replace(s, s.w.saved).s.w) ==> Replace(s, s.w.saved).s.w.saved == s.w.saved
    ensures SameIdentity(s.w.saved, Replace(s, s.w.saved).s.w.saved)
  {
    var rec := s.w.saved;
    var f1 := DeleteMounts(s, rec.vmid);
    DeleteMountsClean(s);
    if f1.Halt? { return; }
    var f2 := Destroy(f1.s, rec.vmid);
    DestroyClean(f1.s);
    if f2.Halt? { return; }
    CloneAndFinishClean(f2.s);
  }

  /** A token no guest of this record carries yet. */
  predicate FreshToken(w: World, token: Token) {
    w.saved.vmid in w.guests ==> w.guests[w.saved.vmid].config.note != Recovery(token)
  }

  /** Every cleanly interrupted rebuild of a finished, stopped container stands at one of four places. */
  lemma RebuildClean(s: Sys, token: Token)
    requires Settled(s.w) && s.w.saved.vmid !in s.w.orphans && FreshToken(s.w, token)
    requires Clean(s.tape, s.w.saved.vmid)
    ensures Alike(s.w, Rebuild(s, token).s.w)
            || BeforeDestroy(Rebuild(s, token).s.w)
            || Resumable(Rebuild(s, token).s.w)
            || Finished(Rebuild(s, token).s.w)
    ensures BeforeDestroy(Rebuild(s, token).s.w) && !Alike(s.w, Rebuild(s, token).s.w) ==>
              Rebuild(s, token).s.w.saved.token == Some(token)
    ensures SameIdentity(s.w.saved, Rebuild(s, token).s.w.saved)
  {
    var f1 := Managed(s);
    ManagedClean(s);
    if f1.Halt? { return; }
    var f2 := Status(f1.s);
    ReadClean(f1.s);
    if f2.Halt? || Running(f2.s.w, f2.s.w.saved.vmid) { return; }
    var f3 := Read(f2.s);
    ReadClean(f2.s);
    if f3.Halt? { return; }
    var rec := RebuildRecord(f3.s.w, token);
    var f4 := Save(f3.s, rec);
    SaveClean(f3.s, rec);
    assert BeforeDestroy(f3.s.w.(saved := rec));
    if f4.Halt? { return; }
    ReplaceClean(f4.s);
  }

  // ----- main theorems -------------------------------------------------------------------------------------------

  predicate OnlyArrivals(w: World, w': World) {
    && w' == w.(guests := w'.guests)
    && (forall id :: id in w.guests ==> id in w'.guests && w'.guests[id] == w.guests[id])
  }

  /** Interrupted before the old container is destroyed, recovery refuses under all circumstances and changes
      nothing: afterwards only other users' new guests differ. */
  lemma BeforeDestroyIsRefused(s: Sys)
    requires BeforeDestroy(s.w)
    ensures Recover(s).Halt? && OnlyArrivals(s.w, Recover(s).s.w)
  {
  }

  /** The mounts are deleted but the old container is not destroyed: every operation refuses, whatever happens, so the
      world stays as it is until someone inspects it. */
  lemma DeletedMountsNeedInspection(s: Sys, op: Op)
    requires BeforeDestroy(s.w) && s.w.guests[s.w.saved.vmid].config.mounts != OwnMounts(s.w.saved.name)
    ensures Perform(s, op).Halt? && OnlyArrivals(s.w, Perform(s, op).s.w)
  {
    UnmanagedIsRefused(s);
    BeforeDestroyIsRefused(s);
  }

  lemma UnmanagedIsRefused(s: Sys)
    requires s.w.saved.vmid in s.w.guests && !ManagedGuest(s.w.saved, s.w.guests[s.w.saved.vmid])
    ensures Managed(s).Halt? && OnlyArrivals(s.w, Managed(s).s.w)
  {
  }

  /** With no fault, a rebuild of a stopped managed container, finished or interrupted before its mounts were touched,
      ends with the same container finished and running. */
  lemma QuietRebuild(w: World, token: Token)
    requires ManagedWorld(w) && BasePresent(w) && w.saved.vmid !in w.orphans
    requires !w.guests[w.saved.vmid].running && !w.guests[w.saved.vmid].config.locked
    ensures Rebuild(Sys(w, []), token).Go?
    ensures Finished(Rebuild(Sys(w, []), token).s.w) && OldOneGone(Rebuild(Sys(w, []), token).s.w, token)
    ensures SameIdentity(w.saved, Rebuild(Sys(w, []), token).s.w.saved)
  {
    var rec := RebuildRecord(w, token);
    QuietArrive(w, []);
    var w1 := w.(saved := rec);
    QuietArrive(w1, []);
    assert OwnMounts(rec.name).Keys == {0, 1, 2};
    var s2 := DeleteMounts(Sys(w1, []), rec.vmid).s;
    QuietArrive(s2.w, s2.log);
    assert s2.w.guests[rec.vmid].config.mounts == map[];
    assert Listed(s2.w.guests[rec.vmid]) == {};
    var s3 := Destroy(s2, rec.vmid).s;
    assert Gone(s3.w);
    QuietClone(s3.w, s3.log);
    CloneAndFinishClean(s3);
  }

  /** The old container no longer holds the id: either nothing does or a clone made for this token. */
  predicate OldOneGone(w: World, token: Token) {
    w.saved.vmid in w.guests ==> w.guests[w.saved.vmid].config.note == Recovery(token)
  }

  /** A rebuild interrupted anywhere after the old container is destroyed, then retried any number of times with any
      clean interruptions: from there one fault-free recovery, after a shutdown if the new container already runs,
      ends with the same container finished and running. */
  lemma EveryCrashConverges(s: Sys, token: Token, tries: seq<(Retry, seq<Event>)>)
    requires Settled(s.w) && s.w.saved.vmid !in s.w.orphans && FreshToken(s.w, token)
    requires Clean(s.tape, s.w.saved.vmid) && AllClean(tries, s.w.saved.vmid)
    requires OldOneGone(Rebuild(s, token).s.w, token)
    ensures var w := Retries(Rebuild(s, token).s.w, tries);
            || (Settled(w) && SameIdentity(s.w.saved, w.saved))
            || (Live(w)
                && Recover(Shutdown(Sys(w, [])).s).Go?
                && Finished(Recover(Shutdown(Sys(w, [])).s).s.w)
                && SameIdentity(s.w.saved, Recover(Shutdown(Sys(w, [])).s).s.w.saved))
            || (!Live(w)
                && Recover(Sys(w, [])).Go?
                && Finished(Recover(Sys(w, [])).s.w)
                && SameIdentity(s.w.saved, Recover(Sys(w, [])).s.w.saved))
  {
    var w1 := Rebuild(s, token).s.w;
    RebuildClean(s, token);
    var w := Retries(w1, tries);
    RetriesClean(w1, tries);
    if Settled(w) { return; }
    if Live(w) {
      QuietShutdown(w);
      RecoverExactly(Shutdown(Sys(w, [])).s.w, Shutdown(Sys(w, [])).s.log);
      RecoverClean(Shutdown(Sys(w, [])).s);
    } else {
      RecoverExactly(w, []);
      RecoverClean(Sys(w, []));
    }
  }

  lemma QuietShutdown(w: World)
    requires Live(w)
    ensures Shutdown(Sys(w, [])).Go? && Shutdown(Sys(w, [])).s.tape == []
    ensures Cloned(Shutdown(Sys(w, [])).s.w)
    ensures Shutdown(Sys(w, [])).s.w.saved == w.saved
  {
    QuietArrive(w, []);
    var down := SetRunning(Sys(w, []), w.saved.vmid, false).s;
    QuietArrive(down.w, down.log);
  }
}
