/** What each container operation demands, field by field, when it succeeds, and exactly what it leaves then. */
module ContainerAdmission {
  import opened Basics
  import opened ContainerModel
  import opened ContainerProtocol
  import opened ContainerRecovery
  import C = ContainerContinuation

  // ----- the demands ---------------------------------------------------------------------------------------------

  function Retains(name: string): map<nat, Mount> {
    map[0 := Mount(Retained(name, Home), At(Home)),
        1 := Mount(Retained(name, Root), At(Root)),
        2 := Mount(Retained(name, Data), At(Data))]
  }

  predicate AllRetained(w: World) { w.retained == {Home, Root, Data} }

  /** Unprivileged, under its own name, on its own root volume, with exactly the three retained directories. */
  predicate OwnContainer(rec: Record, g: Guest) {
    var c := g.config;
    && g.kind == Lxc && c.hostname == Named(rec.name) && c.unprivileged
    && c.mounts == Retains(rec.name) && !c.unusedDisks && !c.idmap
    && c.root in {Disk(rec.storage, VmDisk, rec.vmid), Disk(rec.storage, Subvol, rec.vmid)}
  }

  /** An unprivileged, unlocked template under its own name, on its own root volume, with nothing mounted. */
  predicate SoundBase(rec: Record, g: Guest) {
    var c := g.config;
    && g.kind == Lxc && c.hostname == BaseOf(rec.base) && c.template && c.unprivileged
    && c.mounts == map[] && !c.unusedDisks && !c.idmap && !c.locked
    && c.root in {Disk(rec.storage, BaseDisk, rec.base), Disk(rec.storage, Subvol, rec.base)}
  }

  /** A stopped container that carries the journal's token, with no mount but retained ones. */
  predicate OwnClone(rec: Record, g: Guest) {
    var c := g.config;
    && g.kind == Lxc && !g.running && rec.token.Some? && c.note == Recovery(rec.token.value)
    && c.hostname == Named(rec.name) && c.unprivileged && !c.template && !c.locked && !c.idmap && !c.unusedDisks
    && c.root in {Disk(rec.storage, VmDisk, rec.vmid), Disk(rec.storage, Subvol, rec.vmid)}
    && forall k :: k in c.mounts ==> k < 3 && c.mounts[k] == Retains(rec.name)[k]
  }

  predicate HasOwn(w: World) {
    w.saved.vmid in w.guests && OwnContainer(w.saved, w.guests[w.saved.vmid]) && AllRetained(w)
  }

  predicate HasBase(w: World) { w.saved.base in w.guests && SoundBase(w.saved, w.guests[w.saved.base]) }

  predicate RebuildAllowed(w: World) { HasOwn(w) && !w.guests[w.saved.vmid].running && HasBase(w) }

  predicate RecoverAllowed(w: World) {
    var rec := w.saved;
    && (rec.phase == Rebuilding || rec.phase == Cloning || rec.phase == Configuring)
    && rec.token.Some? && AllRetained(w) && HasBase(w) && rec.recoveryBase == Some(w.guests[rec.base].config)
    && (if rec.vmid in w.guests then OwnClone(rec, w.guests[rec.vmid]) else rec.vmid !in w.orphans)
  }

  lemma OwnMeans(w: World)
    ensures ManagedWorld(w) <==> HasOwn(w)
  {
  }

  lemma BaseMeans(w: World)
    ensures BasePresent(w) <==> HasBase(w)
  {
  }

  lemma CloneMeans(rec: Record, g: Guest)
    ensures PartialClone(rec, g) <==> OwnClone(rec, g)
  {
    assert OwnMounts(rec.name).Keys == {0, 1, 2} == Retains(rec.name).Keys;
  }

  // ----- what success leaves -------------------------------------------------------------------------------------

  /** The container once it is configured for its record and started. */
  function Ran(rec: Record, g: Guest): Guest {
    Guest(g.kind, g.config.(memory := rec.memory, cores := rec.cpus, mounts := g.config.mounts + Retains(rec.name)),
          true, g.maker)
  }

  /** The container that a clone of this base becomes. */
  function Fresh(rec: Record, token: Token, base: Guest): Guest {
    Guest(Lxc, Config(Named(rec.name), true, false, false, Recovery(token), Retains(rec.name), false, false,
                      Disk(rec.storage, if base.config.root == Disk(rec.storage, Subvol, rec.base) then Subvol
                                        else VmDisk, rec.vmid), rec.memory, rec.cpus),
          true, Baseline)
  }

  function ReadyRecord(rec: Record, token: Token, base: Guest): Record {
    rec.(recoveryBase := Some(base.config), token := Some(token), phase := Ready)
  }

  /** `t` comes from `s` with this record, this container and otherwise nothing but arrivals. */
  predicate Becomes(s: Sys, t: Sys, saved: Record, g: Guest) {
    && t.w.saved == saved && t.w.retained == s.w.retained && t.w.orphans == s.w.orphans
    && saved.vmid in t.w.guests && t.w.guests[saved.vmid] == g
    && forall id :: id in s.w.guests && id != saved.vmid ==> id in t.w.guests && t.w.guests[id] == s.w.guests[id]
  }

  lemma SaveGo(s: Sys, r: Record)
    requires r.vmid in s.w.guests && Save(s, r).Go?
    ensures Becomes(s, Save(s, r).s, r, s.w.guests[r.vmid])
  {
  }

  lemma ConfigureGo(s: Sys)
    requires s.w.saved.vmid in s.w.guests && Configure(s, s.w.saved).Go?
    ensures Becomes(s, Configure(s, s.w.saved).s, s.w.saved,
                    Ran(s.w.saved, s.w.guests[s.w.saved.vmid]).(running := s.w.guests[s.w.saved.vmid].running))
  {
  }

  lemma SwitchGo(s: Sys, on: bool)
    requires s.w.saved.vmid in s.w.guests && SetRunning(s, s.w.saved.vmid, on).Go?
    ensures Becomes(s, SetRunning(s, s.w.saved.vmid, on).s, s.w.saved,
                    s.w.guests[s.w.saved.vmid].(running := on))
  {
  }

  lemma ReadGo(s: Sys)
    requires s.w.saved.vmid in s.w.guests
    ensures Becomes(s, Read(s).s, s.w.saved, s.w.guests[s.w.saved.vmid])
  {
  }

  lemma PasswordGo(s: Sys)
    requires s.w.saved.vmid in s.w.guests && SetPassword(s, s.w.saved.vmid).Go?
    ensures Becomes(s, SetPassword(s, s.w.saved.vmid).s, s.w.saved, s.w.guests[s.w.saved.vmid])
  {
  }

  lemma LogInGo(s: Sys)
    requires s.w.saved.vmid in s.w.guests && LogInAndCommit(s, s.w.saved).Go?
    ensures Becomes(s, LogInAndCommit(s, s.w.saved).s, s.w.saved.(phase := Ready), s.w.guests[s.w.saved.vmid])
  {
    PasswordGo(s);
    var s1 := SetPassword(s, s.w.saved.vmid).s;
    ReadGo(s1);
    SaveGo(Status(s1).s, s.w.saved.(phase := Ready));
  }

  /** Whenever finishing a clone succeeds, it is configured and runs, and the record is ready. */
  lemma FinishGo(s: Sys)
    requires s.w.saved.token.Some? && s.w.saved.vmid in s.w.guests && FinishClone(s, s.w.saved).Go?
    ensures Becomes(s, FinishClone(s, s.w.saved).s, s.w.saved.(phase := Ready),
                    Ran(s.w.saved, s.w.guests[s.w.saved.vmid]))
  {
    var r := s.w.saved.(phase := Configuring);
    SaveGo(s, r);
    var s1 := Save(s, r).s;
    ConfigureGo(s1);
    var s2 := Configure(s1, r).s;
    SwitchGo(s2, true);
    LogInGo(SetRunning(s2, r.vmid, true).s);
  }

  lemma MakeGo(s: Sys, token: Token)
    requires HasBase(s.w) && s.w.saved.token == Some(token) && Clone(s, s.w.saved).Go?
    ensures Becomes(s, Clone(s, s.w.saved).s, s.w.saved,
                    CloneOf(s.w.guests[s.w.saved.base], s.w.saved))
  {
  }

  lemma CloneIsFresh(rec: Record, token: Token, base: Guest)
    requires SoundBase(rec, base) && rec.token == Some(token)
    ensures Ran(rec, CloneOf(base, rec)) == Fresh(rec, token, base)
  {
    assert map[] + Retains(rec.name) == Retains(rec.name);
  }

  /** Whenever cloning succeeds, what runs is exactly the fresh container of the base. */
  lemma CloneGo(s: Sys, token: Token)
    requires HasBase(s.w) && s.w.saved.token == Some(token) && CloneAndFinish(s, s.w.saved).Go?
    ensures Becomes(s, CloneAndFinish(s, s.w.saved).s, s.w.saved.(phase := Ready),
                    Fresh(s.w.saved, token, s.w.guests[s.w.saved.base]))
  {
    var r := s.w.saved.(phase := Cloning);
    var s1 := Save(s, r).s;
    assert HasBase(s1.w);
    MakeGo(s1, token);
    FinishGo(Clone(s1, r).s);
    CloneIsFresh(r, token, s.w.guests[r.base]);
  }

  lemma DeleteGo(s: Sys)
    requires HasOwn(s.w) && DeleteMounts(s, s.w.saved.vmid).Go?
    ensures Becomes(s, DeleteMounts(s, s.w.saved.vmid).s, s.w.saved, WithMounts(s.w.guests[s.w.saved.vmid], map[]))
  {
    assert Retains(s.w.saved.name).Keys == {0, 1, 2};
    assert Retains(s.w.saved.name) - {0, 1, 2} == map[];
  }

  lemma DestroyGo(s: Sys)
    requires s.w.saved.vmid in s.w.guests && s.w.guests[s.w.saved.vmid].config.mounts == map[]
    requires Destroy(s, s.w.saved.vmid).Go?
    ensures var t := Destroy(s, s.w.saved.vmid).s;
            && t.w.saved == s.w.saved && t.w.retained == s.w.retained && t.w.orphans == s.w.orphans
            && s.w.saved.vmid !in t.w.guests
            && forall id :: id in s.w.guests && id != s.w.saved.vmid ==>
                 id in t.w.guests && t.w.guests[id] == s.w.guests[id]
  {
    assert Listed(Arrive(s).w.guests[s.w.saved.vmid]) == {};
  }

  /** The three reads before anything is changed. */
  function Checked(s: Sys): Sys { Arrive(Arrive(Arrive(s))) }

  lemma ReplaceGo(s: Sys, token: Token)
    requires HasOwn(s.w) && HasBase(s.w) && s.w.saved.token == Some(token) && Replace(s, s.w.saved).Go?
    ensures Becomes(s, Replace(s, s.w.saved).s, s.w.saved.(phase := Ready),
                    Fresh(s.w.saved, token, s.w.guests[s.w.saved.base]))
  {
    DeleteGo(s);
    var s1 := DeleteMounts(s, s.w.saved.vmid).s;
    DestroyGo(s1);
    var s2 := Destroy(s1, s.w.saved.vmid).s;
    assert HasBase(s2.w) && s2.w.guests[s.w.saved.base] == s.w.guests[s.w.saved.base];
    CloneGo(s2, token);
  }

  /** Whenever a rebuild succeeds, what runs under the id is exactly the fresh container of the base it met, and
      nothing else has changed. */
  lemma RebuildGo(s: Sys, token: Token)
    requires Rebuild(s, token).Go?
    ensures var w := Checked(s).w;
            && RebuildAllowed(w)
            && Becomes(s, Rebuild(s, token).s, ReadyRecord(s.w.saved, token, w.guests[s.w.saved.base]),
                       Fresh(s.w.saved, token, w.guests[s.w.saved.base]))
  {
    OwnMeans(Arrive(s).w);
    var t := Checked(s);
    BaseMeans(t.w);
    var rec := RebuildRecord(t.w, token);
    SaveGo(t, rec);
    var u := Save(t, rec).s;
    assert HasOwn(u.w) && HasBase(u.w) && u.w.guests[rec.base] == t.w.guests[rec.base];
    ReplaceGo(u, token);
  }

  /** No call that would change a guest. */
  predicate NoCalls(s: Sys, t: Sys) {
    s.log <= t.log && forall k :: |s.log| <= k < |t.log| ==> t.log[k].Admitted?
  }

  /** Nothing but arrivals has happened. */
  predicate Idle(s: Sys, t: Sys) { OnlyArrivals(s.w, t.w) && NoCalls(s, t) }

  lemma ArriveIdle(s: Sys)
    ensures Idle(s, Arrive(s)) && Arrive(s).w.saved == s.w.saved
  {
  }

  lemma IdleTrans(a: Sys, b: Sys, c: Sys)
    requires Idle(a, b) && Idle(b, c)
    ensures Idle(a, c)
  {
  }

  lemma CheckedIdle(s: Sys)
    ensures Idle(s, Arrive(s)) && Idle(s, Arrive(Arrive(s))) && Idle(s, Checked(s))
    ensures Idle(Arrive(s), Checked(s)) && Idle(Arrive(Arrive(s)), Checked(s))
  {
    ArriveIdle(s);
    ArriveIdle(Arrive(s));
    ArriveIdle(Arrive(Arrive(s)));
    IdleTrans(s, Arrive(s), Arrive(Arrive(s)));
    IdleTrans(s, Arrive(Arrive(s)), Checked(s));
    IdleTrans(Arrive(s), Arrive(Arrive(s)), Checked(s));
  }

  /** Whatever happens, a rebuild saves nothing and changes no guest unless the container and its base were found as
      demanded, and the container stopped. */
  lemma RebuildNeedsChecks(s: Sys, token: Token)
    requires !RebuildAllowed(Checked(s).w)
    ensures Rebuild(s, token).Halt? && Idle(s, Rebuild(s, token).s)
  {
    CheckedIdle(s);
    OwnMeans(Arrive(s).w);
    if !HasOwn(Arrive(s).w) { assert Rebuild(s, token) == Halt(Arrive(s)); return; }
    assert HasOwn(Checked(s).w);
    RebuildStops(s, token);
  }

  lemma RebuildStops(s: Sys, token: Token)
    requires HasOwn(Arrive(s).w) && (Checked(s).w.guests[s.w.saved.vmid].running || !HasBase(Checked(s).w))
    requires s.w.saved.vmid in Checked(s).w.guests
    ensures Rebuild(s, token).Halt? && Rebuild(s, token).s in {Arrive(s), Arrive(Arrive(s)), Checked(s)}
  {
    BaseMeans(Checked(s).w);
    CheckedIdle(s);
  }

  /** The same for a recovery, the journal and what holds the id. */
  lemma RecoverNeedsChecks(s: Sys)
    requires !RecoverAllowed(Arrive(Arrive(s)).w)
    ensures Recover(s).Halt? && Idle(s, Recover(s).s)
  {
    CheckedIdle(s);
    RecoverNeedsStop(s);
  }

  lemma RecoverStops(s: Sys)
    requires var w := Arrive(Arrive(s)).w;
             || !Journalled(Arrive(s).w)
             || (if w.saved.vmid in w.guests then !PartialClone(w.saved, w.guests[w.saved.vmid])
                 else w.saved.vmid in w.orphans)
    ensures Recover(s).Halt? && Recover(s).s in {Arrive(s), Arrive(Arrive(s)), Checked(s)}
  {
    CheckedIdle(s);
  }

  lemma RecoverNeedsStop(s: Sys)
    requires !RecoverAllowed(Arrive(Arrive(s)).w)
    ensures Recover(s).Halt? && Recover(s).s in {Arrive(s), Arrive(Arrive(s)), Checked(s)}
  {
    CheckedIdle(s);
    var w := Arrive(Arrive(s)).w;
    BaseMeans(Arrive(s).w);
    if w.saved.vmid in w.guests { CloneMeans(w.saved, w.guests[w.saved.vmid]); }
    RecoverStops(s);
  }

  predicate StartAllowed(w: World) { HasOwn(w) && w.saved.phase == Ready }

  /** A start or shutdown calls the tool only for its own container, a start only once the record is ready. */
  lemma SwitchNeedsChecks(s: Sys)
    ensures !StartAllowed(Arrive(s).w) ==> Start(s) == Halt(Arrive(s))
    ensures !HasOwn(Arrive(s).w) ==> Shutdown(s) == Halt(Arrive(s))
    ensures Idle(s, Arrive(s))
  {
    ArriveIdle(s);
    OwnMeans(Arrive(s).w);
  }

  /** Whenever a recovery succeeds, what runs is the fresh container of the base, or the clone it found, configured. */
  lemma RecoverGo(s: Sys)
    requires Recover(s).Go?
    ensures var w := Arrive(Arrive(s)).w;
            && RecoverAllowed(w)
            && Becomes(s, Recover(s).s, s.w.saved.(phase := Ready),
                       if w.saved.vmid in w.guests then Ran(s.w.saved, w.guests[w.saved.vmid])
                       else Fresh(s.w.saved, s.w.saved.token.value, w.guests[w.saved.base]))
  {
    if !RecoverAllowed(Arrive(Arrive(s)).w) { RecoverNeedsChecks(s); }
    CheckedIdle(s);
    var t := Inspect(s).s;
    assert t == Checked(s);
    if FoundAbsent(s) { CloneGo(t, s.w.saved.token.value); } else { FinishGo(t); }
  }

  /** Whenever a start succeeds the container runs, and nothing else has changed. */
  lemma StartGo(s: Sys)
    requires Start(s).Go?
    ensures StartAllowed(Arrive(s).w)
    ensures Becomes(s, Start(s).s, s.w.saved, Arrive(s).w.guests[s.w.saved.vmid].(running := true))
  {
    SwitchNeedsChecks(s);
    SwitchGo(Arrive(s), true);
    ReadGo(SetRunning(Arrive(s), s.w.saved.vmid, true).s);
  }

  /** Whenever a shutdown succeeds the container is stopped. */
  lemma ShutdownGo(s: Sys)
    requires Shutdown(s).Go?
    ensures HasOwn(Arrive(s).w)
    ensures Becomes(s, Shutdown(s).s, s.w.saved, Arrive(s).w.guests[s.w.saved.vmid].(running := false))
  {
    SwitchNeedsChecks(s);
    SwitchGo(Arrive(s), false);
    ReadGo(SetRunning(Arrive(s), s.w.saved.vmid, false).s);
  }

  // ----- undisturbed: exactly when -------------------------------------------------------------------------------

  predicate Locked(w: World)
    requires w.saved.vmid in w.guests
  { w.guests[w.saved.vmid].config.locked }

  lemma QuietChecked(w: World)
    ensures Arrive(Sys(w, [])) == Sys(w, []) && Checked(Sys(w, [])) == Sys(w, [])
  {
    QuietArrive(w, []);
  }

  /** Undisturbed, a rebuild succeeds exactly when its demands are met and the container is not locked. If they are not
      met it changes nothing; if only the lock stands in its way, the journal is saved. */
  lemma RebuildExactly(w: World, token: Token)
    ensures var f := Rebuild(Sys(w, []), token);
            && (f.Go? <==> RebuildAllowed(w) && !Locked(w))
            && (!RebuildAllowed(w) ==> f.s.w == w)
            && (RebuildAllowed(w) && Locked(w) ==>
                  f.s.w == w.(saved := w.saved.(recoveryBase := Some(w.guests[w.saved.base].config),
                                                token := Some(token), phase := Rebuilding)))
  {
    QuietChecked(w);
    OwnMeans(w);
    BaseMeans(w);
    if RebuildAllowed(w) {
      var rec := RebuildRecord(w, token);
      QuietArrive(w.(saved := rec), []);
      if !Locked(w) { QuietReplaceGoes(w.(saved := rec)); }
    }
  }

  lemma QuietReplaceGoes(w: World)
    requires HasOwn(w) && HasBase(w) && !w.guests[w.saved.vmid].running && !Locked(w) && w.saved.phase == Rebuilding
    requires w.saved.token.Some? && w.saved.recoveryBase == Some(w.guests[w.saved.base].config)
    ensures Replace(Sys(w, []), w.saved).Go?
  {
    QuietArrive(w, []);
    BaseMeans(w);
    assert Retains(w.saved.name) - {0, 1, 2} == map[];
    var s1 := DeleteMounts(Sys(w, []), w.saved.vmid).s;
    QuietArrive(s1.w, s1.log);
    assert Listed(s1.w.guests[w.saved.vmid]) == {};
    var s2 := Destroy(s1, w.saved.vmid).s;
    QuietClone(s2.w, s2.log);
  }

  /** Undisturbed, a recovery succeeds exactly when its demands are met, and otherwise changes nothing. */
  lemma RecoverAllowedExactly(w: World)
    ensures Recover(Sys(w, [])).Go? <==> RecoverAllowed(w)
    ensures !RecoverAllowed(w) ==> Recover(Sys(w, [])).s == Sys(w, [])
  {
    RecoverExactly(w, []);
    BaseMeans(w);
    if w.saved.vmid in w.guests { CloneMeans(w.saved, w.guests[w.saved.vmid]); }
  }

  /** Undisturbed, a start succeeds exactly for its own stopped, unlocked container whose record is ready, and a
      shutdown exactly for its own running, unlocked one; neither changes anything else. */
  lemma SwitchExactly(w: World)
    ensures Start(Sys(w, [])).Go? <==> StartAllowed(w) && Switchable(w, false)
    ensures Shutdown(Sys(w, [])).Go? <==> HasOwn(w) && Switchable(w, true)
    ensures Start(Sys(w, [])).Halt? ==> Start(Sys(w, [])).s.w == w
    ensures Shutdown(Sys(w, [])).Halt? ==> Shutdown(Sys(w, [])).s.w == w
  {
    QuietArrive(w, []);
    OwnMeans(w);
    if HasOwn(w) {
      var up, down := SetRunning(Sys(w, []), w.saved.vmid, true).s, SetRunning(Sys(w, []), w.saved.vmid, false).s;
      QuietArrive(up.w, up.log);
      QuietArrive(down.w, down.log);
    }
  }

  predicate Switchable(w: World, running: bool) {
    && w.saved.vmid in w.guests && w.guests[w.saved.vmid].running == running
    && !w.guests[w.saved.vmid].config.locked && !w.guests[w.saved.vmid].config.template
  }

  // ----- privileged containers -----------------------------------------------------------------------------------

  /** Every privileged guest of Baseline's making was there before, just as it is. */
  predicate NonePrivileged(w: World, w': World) {
    forall id :: id in w'.guests && w'.guests[id].maker == Baseline && !w'.guests[id].config.unprivileged ==>
      id in w.guests && w.guests[id] == w'.guests[id]
  }

  /** The container of this record, if Baseline made it, is unprivileged, and so is the base. */
  predicate Confined(w: World) {
    && (w.saved.vmid in w.guests && w.guests[w.saved.vmid].maker == Baseline ==>
          w.guests[w.saved.vmid].config.unprivileged)
    && w.saved.base in w.guests && w.guests[w.saved.base].config.unprivileged && w.saved.base != w.saved.vmid
  }

  /** One call or several: no privileged guest is made or changed. */
  predicate KeepsConfined(s: Sys, t: Sys) {
    Confined(s.w) ==>
      Confined(t.w) && NonePrivileged(s.w, t.w) && t.w.saved.vmid == s.w.saved.vmid && t.w.saved.base == s.w.saved.base
  }

  lemma ArriveConfined(s: Sys)
    ensures NonePrivileged(s.w, Arrive(s).w)
    ensures Confined(s.w) ==> Confined(Arrive(s).w)
  {
  }

  lemma SaveConfined(s: Sys, r: Record)
    requires r.vmid == s.w.saved.vmid && r.base == s.w.saved.base
    ensures KeepsConfined(s, Save(s, r).s)
  {
    ArriveConfined(s);
  }

  lemma DeleteConfined(s: Sys, r: Record)
    requires r.vmid == s.w.saved.vmid
    ensures KeepsConfined(s, DeleteMounts(s, r.vmid).s)
  {
    ArriveConfined(s);
  }

  lemma ConfigureConfined(s: Sys, r: Record)
    requires r.vmid == s.w.saved.vmid
    ensures KeepsConfined(s, Configure(s, r).s)
  {
    ArriveConfined(s);
  }

  lemma DestroyConfined(s: Sys, r: Record)
    requires r.vmid == s.w.saved.vmid
    ensures KeepsConfined(s, Destroy(s, r.vmid).s)
  {
    ArriveConfined(s);
  }

  lemma MakeConfined(s: Sys, r: Record)
    requires r.vmid == s.w.saved.vmid && r.base == s.w.saved.base
    ensures KeepsConfined(s, Clone(s, r).s)
  {
    ArriveConfined(s);
  }

  lemma SwitchConfined(s: Sys, id: VmId, on: bool)
    requires id == s.w.saved.vmid
    ensures KeepsConfined(s, SetRunning(s, id, on).s) && KeepsConfined(s, Read(s).s)
  {
    ArriveConfined(s);
  }

  lemma PasswordConfined(s: Sys, id: VmId)
    requires id == s.w.saved.vmid
    ensures KeepsConfined(s, SetPassword(s, id).s)
  {
    ArriveConfined(s);
    var arrived := Arrive(s);
    SwitchConfined(Noted(arrived, ExecVerb, id, id in arrived.w.guests && arrived.w.guests[id].running), id, false);
  }

  lemma LogInConfined(s: Sys, r: Record)
    requires r.vmid == s.w.saved.vmid && r.base == s.w.saved.base && Confined(s.w)
    ensures KeepsConfined(s, LogInAndCommit(s, r).s)
  {
    var f1 := SetPassword(s, r.vmid);
    PasswordConfined(s, r.vmid);
    if f1.Halt? { return; }
    var f2 := Status(f1.s);
    SwitchConfined(f1.s, r.vmid, true);
    if f2.Halt? || !Running(f2.s.w, r.vmid) { return; }
    SaveConfined(f2.s, r.(phase := Ready));
  }

  lemma FinishConfined(s: Sys, rec: Record)
    requires rec.vmid == s.w.saved.vmid && rec.base == s.w.saved.base && Confined(s.w)
    ensures KeepsConfined(s, FinishClone(s, rec).s)
  {
    var r := if rec.token.Some? then rec.(phase := Configuring) else rec;
    var f1 := if rec.token.Some? then Save(s, r) else Go(s);
    SaveConfined(s, r);
    if f1.Halt? { return; }
    var f2 := Configure(f1.s, r);
    ConfigureConfined(f1.s, r);
    if f2.Halt? { return; }
    var f3 := SetRunning(f2.s, r.vmid, true);
    SwitchConfined(f2.s, r.vmid, true);
    if f3.Halt? { return; }
    LogInConfined(f3.s, r);
  }

  lemma CloneConfined(s: Sys, rec: Record)
    requires rec.vmid == s.w.saved.vmid && rec.base == s.w.saved.base && Confined(s.w)
    ensures KeepsConfined(s, CloneAndFinish(s, rec).s)
  {
    var r := if rec.token.Some? then rec.(phase := Cloning) else rec;
    var f1 := if rec.token.Some? then Save(s, r) else Go(s);
    SaveConfined(s, r);
    if f1.Halt? { return; }
    var f2 := Clone(f1.s, r);
    MakeConfined(f1.s, r);
    if f2.Halt? { return; }
    FinishConfined(f2.s, r);
  }

  lemma ReplaceConfined(s: Sys, rec: Record)
    requires rec.vmid == s.w.saved.vmid && rec.base == s.w.saved.base && Confined(s.w)
    ensures KeepsConfined(s, Replace(s, rec).s)
  {
    var f1 := DeleteMounts(s, rec.vmid);
    DeleteConfined(s, rec);
    if f1.Halt? { return; }
    var f2 := Destroy(f1.s, rec.vmid);
    DestroyConfined(f1.s, rec);
    if f2.Halt? { return; }
    CloneConfined(f2.s, rec);
  }

  lemma CheckedConfined(s: Sys)
    ensures NonePrivileged(s.w, Arrive(s).w) && NonePrivileged(s.w, Arrive(Arrive(s)).w)
    ensures NonePrivileged(s.w, Checked(s).w)
  {
    ArriveConfined(s);
    ArriveConfined(Arrive(s));
    ArriveConfined(Arrive(Arrive(s)));
  }

  /** A rebuild ends in one of its reads, or goes on to commit and replace. */
  lemma RebuildFlow(s: Sys, token: Token)
    ensures || Rebuild(s, token).s in {Arrive(s), Arrive(Arrive(s)), Checked(s)}
            || (RebuildAllowed(Checked(s).w) && Rebuild(s, token) == C.CommitAndReplace(Checked(s), token))
  {
    OwnMeans(Arrive(s).w);
    BaseMeans(Checked(s).w);
  }

  lemma RebuildConfined(s: Sys, token: Token)
    ensures NonePrivileged(s.w, Rebuild(s, token).s.w)
  {
    CheckedConfined(s);
    RebuildFlow(s, token);
    var t := Checked(s);
    if Rebuild(s, token).s !in {Arrive(s), Arrive(Arrive(s)), t} {
      var rec := RebuildRecord(t.w, token);
      SaveConfined(t, rec);
      var u := Save(t, rec);
      if u.Go? { ReplaceConfined(u.s, rec); }
    }
  }

  lemma RecoverFlow(s: Sys)
    ensures || Recover(s).s in {Arrive(s), Arrive(Arrive(s)), Checked(s)}
            || (RecoverAllowed(Arrive(Arrive(s)).w)
                && Recover(s) == if FoundAbsent(s) then CloneAndFinish(Checked(s), Checked(s).w.saved)
                                 else FinishClone(Checked(s), Checked(s).w.saved))
  {
    if RecoverAllowed(Arrive(Arrive(s)).w) { InspectFlow(s); } else { RecoverNeedsStop(s); }
  }

  lemma InspectFlow(s: Sys)
    ensures Inspect(s).s in {Arrive(s), Arrive(Arrive(s)), Checked(s)}
    ensures Inspect(s).Go? ==> Inspect(s).s == Checked(s)
  {
  }

  /** What a recovery found is confined, unless a stranger has just taken the free id. */
  lemma AllowedIsConfined(s: Sys)
    requires RecoverAllowed(Arrive(Arrive(s)).w)
    ensures Confined(Checked(s).w)
  {
    CheckedIdle(s);
  }

  lemma RecoverConfined(s: Sys)
    ensures NonePrivileged(s.w, Recover(s).s.w)
  {
    CheckedConfined(s);
    RecoverFlow(s);
    var t := Checked(s);
    if Recover(s).s !in {Arrive(s), Arrive(Arrive(s)), t} {
      AllowedIsConfined(s);
      if FoundAbsent(s) { CloneConfined(t, t.w.saved); } else { FinishConfined(t, t.w.saved); }
    }
  }

  lemma SwitchingFlow(s: Sys)
    ensures var t := Arrive(s);
            && Start(s).s in {t, SetRunning(t, t.w.saved.vmid, true).s, Arrive(SetRunning(t, t.w.saved.vmid, true).s)}
            && Shutdown(s).s in {t, SetRunning(t, t.w.saved.vmid, false).s,
                                 Arrive(SetRunning(t, t.w.saved.vmid, false).s)}
  {
  }

  /** Switching touches nothing but its own container, which is unprivileged. */
  lemma SwitchingConfined(s: Sys)
    ensures NonePrivileged(s.w, Start(s).s.w) && NonePrivileged(s.w, Shutdown(s).s.w)
  {
    ArriveConfined(s);
    SwitchNeedsChecks(s);
    SwitchingFlow(s);
    if HasOwn(Arrive(s).w) {
      OwnSwitch(Arrive(s), true);
      OwnSwitch(Arrive(s), false);
    }
  }

  lemma OwnSwitch(t: Sys, on: bool)
    requires HasOwn(t.w)
    ensures var u := SetRunning(t, t.w.saved.vmid, on).s; NonePrivileged(t.w, u.w) && NonePrivileged(t.w, Arrive(u).w)
  {
    var u := SetRunning(t, t.w.saved.vmid, on).s;
    ArriveConfined(t);
    ArriveConfined(u);
  }

  /** Over every history, whatever fails or is interrupted and whoever takes free ids meanwhile, Baseline makes no
      privileged container and changes none: what it leaves running is unprivileged, or was there before. */
  lemma {:induction false} HistoryConfined(w: World, ops: seq<(Op, seq<Event>)>)
    ensures NonePrivileged(w, History(w, ops))
    decreases |ops|
  {
    if ops == [] { return; }
    var s := Sys(w, ops[0].1);
    match ops[0].0 {
      case DoRebuild(token) => RebuildConfined(s, token);
      case DoRecover => RecoverConfined(s);
      case DoStart => SwitchingConfined(s);
      case DoShutdown => SwitchingConfined(s);
    }
    HistoryConfined(Perform(s, ops[0].0).s.w, ops[1..]);
  }

  // ----- a failed login ------------------------------------------------------------------------------------------

  /** When the tool reports that the password was not set, and the stop that follows is not disturbed, the container
      does not run. */
  lemma FailedPasswordStops(s: Sys, id: VmId)
    requires Editable(s.w, id) && s.w.guests[id].running && !s.w.guests[id].config.template
    requires NextEvent(s).fault.Failed? && NextEvent(Arrive(s)).fault.Fine?
    ensures LogInAndCommit(s, s.w.saved.(vmid := id)).Halt?
    ensures !Running(LogInAndCommit(s, s.w.saved.(vmid := id)).s.w, id)
  {
  }
}
