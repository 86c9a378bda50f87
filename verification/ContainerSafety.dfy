/** Safety of every history: retained directories survive, and no operation ever changes a guest of anyone else. */
module ContainerSafety {
  import opened ContainerModel
  import opened ContainerProtocol

  /** A stranger that holds this record's id neither mounts its directories nor carries its current token. */
  predicate Calm(w: World) {
    w.saved.vmid in w.guests && w.guests[w.saved.vmid].maker == Stranger ==>
      IsStranger(w.guests[w.saved.vmid], w.saved)
  }

  predicate Ours(w: World) { w.saved.vmid in w.guests && w.guests[w.saved.vmid].maker == Baseline }

  predicate SameIdentity(r: Record, r': Record) {
    r' == r.(phase := r'.phase, token := r'.token, recoveryBase := r'.recoveryBase)
  }

  /** Every guest of `w`, except a Baseline-made one under this record's own id, is still there and unchanged. */
  predicate OthersKept(w: World, w': World) {
    forall id :: id in w.guests && !(id == w.saved.vmid && w.guests[id].maker == Baseline) ==>
      id in w'.guests && w'.guests[id] == w.guests[id]
  }

  predicate Safe(w: World, w': World) {
    && w'.retained == w.retained
    && SameIdentity(w.saved, w'.saved)
    && OthersKept(w, w')
    && Calm(w')
  }

  lemma SafeTrans(a: World, b: World, c: World)
    requires Safe(a, b) && Safe(b, c)
    ensures Safe(a, c)
  {
  }

  // ----- what calls may meet -------------------------------------------------------------------------------------

  /** Guests that others created are strangers and still there as they were created. A call went to an id that was
      free, or to this record's own container, made by Baseline; the one exception is a clone to an id that somebody
      has just taken, which the tool refuses. */
  predicate Good(m: Mark, w: World) {
    match m
    case Admitted(guests) =>
      forall id :: id in guests ==> guests[id].maker == Stranger && id in w.guests && w.guests[id] == guests[id]
    case Called(verb, id, occupant, accepted) =>
      && id == w.saved.vmid
      && (occupant.None? || occupant.value.maker == Baseline || (verb == CloneVerb && !accepted))
  }

  predicate Sound(s: Sys) { forall i :: 0 <= i < |s.log| ==> Good(s.log[i], s.w) }

  /** From one state of a run to a later one. */
  predicate SafeRun(s: Sys, t: Sys) { Safe(s.w, t.w) && (Sound(s) ==> Sound(t)) }

  lemma SafeRunTrans(a: Sys, b: Sys, c: Sys)
    requires SafeRun(a, b) && SafeRun(b, c)
    ensures SafeRun(a, c)
  {
    SafeTrans(a.w, b.w, c.w);
  }

  /** What is admitted stays as long as nothing but this container changes. */
  lemma GoodLasts(m: Mark, w: World, w': World)
    requires Safe(w, w') && Good(m, w)
    ensures Good(m, w')
  {
  }

  lemma WorldRun(s: Sys, w': World)
    requires Safe(s.w, w')
    ensures SafeRun(s, s.(w := w'))
  {
    if Sound(s) {
      forall i | 0 <= i < |s.log| ensures Good(s.log[i], w') { GoodLasts(s.log[i], s.w, w'); }
    }
  }

  lemma NotedRun(s: Sys, verb: Verb, id: VmId, accepted: bool)
    requires Calm(s.w) && Good(Called(verb, id, Occupant(s.w, id), accepted), s.w)
    ensures SafeRun(s, Noted(s, verb, id, accepted))
  {
  }

  lemma ArriveRun(s: Sys)
    requires Calm(s.w)
    ensures SafeRun(s, Arrive(s)) && Arrive(s).w.saved == s.w.saved
    ensures forall id :: id in s.w.guests ==> id in Arrive(s).w.guests && Arrive(s).w.guests[id] == s.w.guests[id]
  {
    var newcomers := Newcomers(s.w, NextEvent(s).arrivals);
    var w' := s.w.(guests := s.w.guests + newcomers);
    WorldRun(s, w');
    assert newcomers != map[] ==> Good(Admitted(newcomers), w');
  }

  /** A call whose every outcome is safe, taken on for a container that is ours or an id that is free. */
  lemma ConcludeRun(s: Sys, verb: Verb, id: VmId, fault: Fault, done: World, partly: World, torn: World)
    requires Calm(s.w) && Good(Called(verb, id, Occupant(Arrive(s).w, id), true), Arrive(s).w)
    requires Safe(Arrive(s).w, done) && Safe(Arrive(s).w, partly) && Safe(Arrive(s).w, torn)
    ensures SafeRun(s, Conclude(Noted(Arrive(s), verb, id, true), fault, done, partly, torn).s)
  {
    var t := Arrive(s);
    ArriveRun(s);
    NotedRun(t, verb, id, true);
    var n := Noted(t, verb, id, true);
    SafeRunTrans(s, t, n);
    WorldRun(n, done);
    WorldRun(n, partly);
    WorldRun(n, torn);
    var end := Conclude(n, fault, done, partly, torn).s;
    assert SafeRun(n, end);
    SafeRunTrans(s, n, end);
  }

  lemma RefusedRun(s: Sys, verb: Verb, id: VmId)
    requires Calm(s.w) && Good(Called(verb, id, Occupant(Arrive(s).w, id), false), Arrive(s).w)
    ensures SafeRun(s, Noted(Arrive(s), verb, id, false))
  {
    ArriveRun(s);
    NotedRun(Arrive(s), verb, id, false);
    SafeRunTrans(s, Arrive(s), Noted(Arrive(s), verb, id, false));
  }

  lemma ManagedIsOurs(w: World)
    requires Calm(w) && ManagedWorld(w)
    ensures Ours(w)
  {
    assert 0 in OwnMounts(w.saved.name);
    assert w.guests[w.saved.vmid].config.mounts[0].source.Retained?;
  }

  // ----- single calls on a container that is ours ----------------------------------------------------------------

  lemma SaveSafe(s: Sys, rec: Record)
    requires Calm(s.w) && SameIdentity(s.w.saved, rec)
    requires Ours(s.w) || rec.token == s.w.saved.token
    ensures SafeRun(s, Save(s, rec).s)
    ensures Ours(s.w) ==> Ours(Save(s, rec).s.w)
    ensures Save(s, rec).Go? ==> Save(s, rec).s.w.saved == rec
    ensures forall id :: id in s.w.guests ==>
              id in Save(s, rec).s.w.guests && Save(s, rec).s.w.guests[id] == s.w.guests[id]
  {
    var t := Arrive(s);
    ArriveRun(s);
    assert Safe(t.w, t.w.(saved := rec));
    WorldRun(t, t.w.(saved := rec));
    SafeRunTrans(s, t, t.(w := t.w.(saved := rec)));
  }

  lemma CloneSafe(s: Sys, rec: Record)
    requires Calm(s.w) && SameIdentity(s.w.saved, rec)
    ensures SafeRun(s, Clone(s, rec).s)
    ensures Clone(s, rec).Go? ==> Ours(Clone(s, rec).s.w)
  {
    var t := Arrive(s);
    ArriveRun(s);
    if rec.vmid in t.w.guests || !IsTemplate(t.w, rec.base) {
      RefusedRun(s, CloneVerb, rec.vmid);
    } else {
      var made := CloneOf(t.w.guests[rec.base], rec);
      ConcludeRun(s, CloneVerb, rec.vmid, NextEvent(s).fault, WithGuest(t.w, rec.vmid, made), t.w,
                  WithGuest(t.w, rec.vmid, made.(config := made.config.(locked := true))));
    }
  }

  lemma ConfigureSafe(s: Sys, rec: Record)
    requires Ours(s.w) && SameIdentity(s.w.saved, rec)
    ensures SafeRun(s, Configure(s, rec).s) && Ours(Configure(s, rec).s.w)
  {
    var t := Arrive(s);
    ArriveRun(s);
    if !Editable(t.w, rec.vmid) {
      RefusedRun(s, SetVerb, rec.vmid);
    } else {
      var g := t.w.guests[rec.vmid];
      var sized := g.(config := g.config.(memory := rec.memory, cores := rec.cpus));
      var partly := WithGuest(t.w, rec.vmid, WithMounts(sized, g.config.mounts[0 := OwnMount(rec.name, Home)]));
      ConcludeRun(s, SetVerb, rec.vmid, NextEvent(s).fault,
                  WithGuest(t.w, rec.vmid, WithMounts(sized, g.config.mounts + OwnMounts(rec.name))), partly, partly);
    }
  }

  lemma SetRunningSafe(s: Sys, on: bool)
    requires Ours(s.w)
    ensures SafeRun(s, SetRunning(s, s.w.saved.vmid, on).s) && Ours(SetRunning(s, s.w.saved.vmid, on).s.w)
  {
    var t, id := Arrive(s), s.w.saved.vmid;
    ArriveRun(s);
    if !Editable(t.w, id) || t.w.guests[id].running == on || t.w.guests[id].config.template {
      RefusedRun(s, SwitchVerb, id);
    } else {
      ConcludeRun(s, SwitchVerb, id, NextEvent(s).fault, WithGuest(t.w, id, t.w.guests[id].(running := on)), t.w, t.w);
    }
  }

  lemma SetPasswordSafe(s: Sys)
    requires Ours(s.w)
    ensures SafeRun(s, SetPassword(s, s.w.saved.vmid).s) && Ours(SetPassword(s, s.w.saved.vmid).s.w)
  {
    var t, id := Arrive(s), s.w.saved.vmid;
    ArriveRun(s);
    var accepted := id in t.w.guests && t.w.guests[id].running;
    NotedRun(t, ExecVerb, id, accepted);
    var n := Noted(t, ExecVerb, id, accepted);
    SafeRunTrans(s, t, n);
    SetRunningSafe(n, false);
    SafeRunTrans(s, n, SetRunning(n, id, false).s);
  }

  lemma ReadSafe(s: Sys)
    requires Calm(s.w)
    ensures SafeRun(s, Read(s).s) && (Ours(s.w) ==> Ours(Read(s).s.w))
    ensures Read(s).s.w.saved == s.w.saved
    ensures forall id :: id in s.w.guests ==> id in Read(s).s.w.guests && Read(s).s.w.guests[id] == s.w.guests[id]
  {
    ArriveRun(s);
  }

  // ----- operations ----------------------------------------------------------------------------------------------

  lemma LogInSafe(s: Sys, r: Record)
    requires Ours(s.w) && SameIdentity(s.w.saved, r)
    ensures SafeRun(s, LogInAndCommit(s, r).s)
  {
    var f1 := SetPassword(s, r.vmid);
    SetPasswordSafe(s);
    if f1.Halt? { return; }
    var f2 := Status(f1.s);
    ReadSafe(f1.s);
    SafeRunTrans(s, f1.s, f2.s);
    if f2.Halt? || !Running(f2.s.w, r.vmid) { return; }
    SaveSafe(f2.s, r.(phase := Ready));
    SafeRunTrans(s, f2.s, Save(f2.s, r.(phase := Ready)).s);
  }

  lemma FinishCloneSafe(s: Sys, rec: Record)
    requires Ours(s.w) && SameIdentity(s.w.saved, rec)
    ensures SafeRun(s, FinishClone(s, rec).s)
  {
    var r := if rec.token.Some? then rec.(phase := Configuring) else rec;
    var f1 := if rec.token.Some? then Save(s, r) else Go(s);
    SaveSafe(s, r);
    if f1.Halt? { return; }
    var f2 := Configure(f1.s, r);
    ConfigureSafe(f1.s, r);
    SafeRunTrans(s, f1.s, f2.s);
    if f2.Halt? { return; }
    var f3 := SetRunning(f2.s, r.vmid, true);
    SetRunningSafe(f2.s, true);
    SafeRunTrans(s, f2.s, f3.s);
    if f3.Halt? { return; }
    LogInSafe(f3.s, r);
    SafeRunTrans(s, f3.s, LogInAndCommit(f3.s, r).s);
  }

  lemma CloneAndFinishSafe(s: Sys, rec: Record)
    requires Calm(s.w) && SameIdentity(s.w.saved, rec) && rec.token == s.w.saved.token
    ensures SafeRun(s, CloneAndFinish(s, rec).s)
  {
    var r := if rec.token.Some? then rec.(phase := Cloning) else rec;
    var f1 := if rec.token.Some? then Save(s, r) else Go(s);
    SaveSafe(s, r);
    if f1.Halt? { return; }
    var f2 := Clone(f1.s, r);
    CloneSafe(f1.s, r);
    SafeRunTrans(s, f1.s, f2.s);
    if f2.Halt? { return; }
    FinishCloneSafe(f2.s, r);
    SafeRunTrans(s, f2.s, FinishClone(f2.s, r).s);
  }

  lemma ManagedSafe(s: Sys)
    requires Calm(s.w)
    ensures SafeRun(s, Managed(s).s)
    ensures Managed(s).Go? ==> Ours(Managed(s).s.w) && ManagedWorld(Managed(s).s.w)
  {
    ReadSafe(s);
    if Managed(s).Go? { ManagedIsOurs(Managed(s).s.w); }
  }

  lemma DeleteMountsSafe(s: Sys)
    requires Ours(s.w) && s.w.guests[s.w.saved.vmid].config.mounts == OwnMounts(s.w.saved.name)
    ensures SafeRun(s, DeleteMounts(s, s.w.saved.vmid).s) && Ours(DeleteMounts(s, s.w.saved.vmid).s.w)
    ensures DeleteMounts(s, s.w.saved.vmid).s.w.saved == s.w.saved
    ensures DeleteMounts(s, s.w.saved.vmid).Go? ==>
              DeleteMounts(s, s.w.saved.vmid).s.w.guests[s.w.saved.vmid].config.mounts == map[]
  {
    var t, id := Arrive(s), s.w.saved.vmid;
    ArriveRun(s);
    assert OwnMounts(s.w.saved.name).Keys == {0, 1, 2};
    if !Editable(t.w, id) || t.w.guests[id].running {
      RefusedRun(s, SetVerb, id);
    } else {
      var g := t.w.guests[id];
      var partly := WithGuest(t.w, id, WithMounts(g, g.config.mounts - {0}));
      ConcludeRun(s, SetVerb, id, NextEvent(s).fault, WithGuest(t.w, id, WithMounts(g, g.config.mounts - {0, 1, 2})),
                  partly, partly);
    }
  }

  /** A guest that lists no mount takes no retained directory with it when it is destroyed. */
  lemma DestroySafe(s: Sys)
    requires Ours(s.w) && s.w.guests[s.w.saved.vmid].config.mounts == map[]
    ensures SafeRun(s, Destroy(s, s.w.saved.vmid).s)
    ensures Destroy(s, s.w.saved.vmid).s.w.saved == s.w.saved
  {
    var t, id := Arrive(s), s.w.saved.vmid;
    ArriveRun(s);
    if !Editable(t.w, id) || t.w.guests[id].running {
      RefusedRun(s, DestroyVerb, id);
    } else {
      assert Listed(t.w.guests[id]) == {};
      var gone := t.w.(guests := t.w.guests - {id}, retained := t.w.retained - Listed(t.w.guests[id]));
      assert gone.retained == t.w.retained;
      ConcludeRun(s, DestroyVerb, id, NextEvent(s).fault, gone, t.w, gone.(orphans := gone.orphans + {id}));
    }
  }

  lemma ReplaceSafe(s: Sys)
    requires Ours(s.w) && s.w.guests[s.w.saved.vmid].config.mounts == OwnMounts(s.w.saved.name)
    ensures SafeRun(s, Replace(s, s.w.saved).s)
  {
    var rec := s.w.saved;
    var f1 := DeleteMounts(s, rec.vmid);
    DeleteMountsSafe(s);
    if f1.Halt? { return; }
    var f2 := Destroy(f1.s, rec.vmid);
    DestroySafe(f1.s);
    SafeRunTrans(s, f1.s, f2.s);
    if f2.Halt? { return; }
    CloneAndFinishSafe(f2.s, rec);
    SafeRunTrans(s, f2.s, CloneAndFinish(f2.s, rec).s);
  }

  lemma RebuildSafe(s: Sys, token: Token)
    requires Calm(s.w)
    ensures SafeRun(s, Rebuild(s, token).s)
  {
    var f1 := Managed(s);
    ManagedSafe(s);
    if f1.Halt? { return; }
    var f2 := Status(f1.s);
    ReadSafe(f1.s);
    SafeRunTrans(s, f1.s, f2.s);
    if f2.Halt? || Running(f2.s.w, f2.s.w.saved.vmid) { return; }
    var f3 := Read(f2.s);
    ReadSafe(f2.s);
    SafeRunTrans(s, f2.s, f3.s);
    if f3.Halt? || !BasePresent(f3.s.w) { return; }
    var rec := RebuildRecord(f3.s.w, token);
    var f4 := Save(f3.s, rec);
    SaveSafe(f3.s, rec);
    SafeRunTrans(s, f3.s, f4.s);
    if f4.Halt? { return; }
    ReplaceSafe(f4.s);
    SafeRunTrans(s, f4.s, Replace(f4.s, rec).s);
  }

  lemma InspectSafe(s: Sys)
    requires Calm(s.w)
    ensures SafeRun(s, Inspect(s).s) && Inspect(s).s.w.saved == s.w.saved
    ensures Inspect(s).Go? && !FoundAbsent(s) ==> Ours(Inspect(s).s.w)
  {
    var f1 := Read(s);
    ReadSafe(s);
    if f1.Halt? || !Journalled(f1.s.w) { return; }
    var f2 := Read(f1.s);
    ReadSafe(f1.s);
    SafeRunTrans(s, f1.s, f2.s);
    if f2.Halt? { return; }
    ReadSafe(f2.s);
    SafeRunTrans(s, f2.s, Read(f2.s).s);
  }

  lemma RecoverSafe(s: Sys)
    requires Calm(s.w)
    ensures SafeRun(s, Recover(s).s)
  {
    var f := Inspect(s);
    InspectSafe(s);
    if f.Halt? { return; }
    if FoundAbsent(s) {
      CloneAndFinishSafe(f.s, f.s.w.saved);
    } else {
      FinishCloneSafe(f.s, f.s.w.saved);
    }
    SafeRunTrans(s, f.s, Recover(s).s);
  }

  lemma StartStopSafe(s: Sys)
    requires Calm(s.w)
    ensures SafeRun(s, Start(s).s) && SafeRun(s, Shutdown(s).s)
  {
    var f1 := Managed(s);
    ManagedSafe(s);
    if f1.Halt? { return; }
    var up, down := SetRunning(f1.s, f1.s.w.saved.vmid, true), SetRunning(f1.s, f1.s.w.saved.vmid, false);
    SetRunningSafe(f1.s, true);
    SetRunningSafe(f1.s, false);
    ReadSafe(up.s);
    ReadSafe(down.s);
    SafeRunTrans(s, f1.s, up.s);
    SafeRunTrans(s, f1.s, down.s);
    SafeRunTrans(s, up.s, Status(up.s).s);
    SafeRunTrans(s, down.s, Status(down.s).s);
  }

  lemma PerformSafe(s: Sys, op: Op)
    requires Calm(s.w)
    ensures SafeRun(s, Perform(s, op).s)
  {
    match op
    case DoRebuild(token) => RebuildSafe(s, token);
    case DoRecover => RecoverSafe(s);
    case DoStart => StartStopSafe(s);
    case DoShutdown => StartStopSafe(s);
  }

  /** Main safety theorem: over every history, whatever fails or is interrupted and whoever takes free ids meanwhile, no
      retained directory is lost, the container keeps its id, base and storage, and every guest that is not this
      container, made by Baseline, stays exactly as it is: the guests there were, and those that others created in the
      middle of an operation. Each call that would change a guest met a free id or this container; only a clone may
      find that somebody has just taken the id, and then the tool refuses it. */
  lemma {:induction false} HistorySafe(w: World, ops: seq<(Op, seq<Event>)>)
    requires Calm(w)
    ensures Safe(w, History(w, ops))
    ensures forall i :: 0 <= i < |HistoryLog(w, ops)| ==> Good(HistoryLog(w, ops)[i], History(w, ops))
    decreases |ops|
  {
    if ops == [] { return; }
    var next := Perform(Sys(w, ops[0].1), ops[0].0).s;
    var last, rest := History(next.w, ops[1..]), HistoryLog(next.w, ops[1..]);
    PerformSafe(Sys(w, ops[0].1), ops[0].0);
    HistorySafe(next.w, ops[1..]);
    SafeTrans(w, next.w, last);
    assert Sound(next);
    forall i | 0 <= i < |next.log| ensures Good(next.log[i], last) { GoodLasts(next.log[i], next.w, last); }
    LogsTogether(next.log, rest, last);
  }

  lemma LogsTogether(a: seq<Mark>, b: seq<Mark>, w: World)
    requires forall i :: 0 <= i < |a| ==> Good(a[i], w)
    requires forall i :: 0 <= i < |b| ==> Good(b[i], w)
    ensures forall i :: 0 <= i < |a + b| ==> Good((a + b)[i], w)
  {
  }
}
