/** How far a rebuild gets: the record on disk and the container under its id, after an interruption at any call. */
module ContainerProgress {
  import opened Basics
  import opened ContainerModel
  import opened ContainerProtocol
  import opened ContainerRecovery
  import opened ContainerAdmission
  import opened ContainerContinuation

  // The record on disk, and what holds its id.
  datatype Stand = Stand(saved: Record, guest: Option<Guest>)

  function StandOf(w: World): Stand { Stand(w.saved, Occupant(w, w.saved.vmid)) }

  /** The first `n` calls go well, and the next one, if there are more than `n` of them, does not. */
  predicate StopsAt(tape: seq<Event>, n: nat, calls: nat) {
    && n <= calls && FineBefore(tape, n)
    && (n < calls ==> n < |tape| && !tape[n].fault.Fine?)
  }

  /** Whether the call that stopped had done all it does. */
  predicate DoneAnyway(tape: seq<Event>, n: nat) {
    n < |tape| && !tape[n].fault.Fine? && tape[n].fault.effect.Everything?
  }

  predicate DoneHalfway(tape: seq<Event>, n: nat) {
    n < |tape| && !tape[n].fault.Fine? && (tape[n].fault.effect.Partly? || tape[n].fault.effect.Torn?)
  }

  lemma StopsLater(tape: seq<Event>, n: nat, calls: nat)
    requires StopsAt(tape, n, calls) && n > 0
    ensures StopsAt(Later(tape, 1), n - 1, calls - 1)
    ensures DoneAnyway(Later(tape, 1), n - 1) <==> DoneAnyway(tape, n)
    ensures DoneHalfway(Later(tape, 1), n - 1) <==> DoneHalfway(tape, n)
    ensures n < |tape| ==> Later(tape, 1)[n - 1] == tape[n]
  {
  }

  // ----- from the clone on ---------------------------------------------------------------------------------------

  function Sized(rec: Record, g: Guest): Guest { g.(config := g.config.(memory := rec.memory, cores := rec.cpus)) }

  /** Configured in part: only the home directory is mounted. */
  function HalfConfigured(rec: Record, g: Guest): Guest {
    WithMounts(Sized(rec, g), g.config.mounts[0 := Mount(Retained(rec.name, Home), At(Home))])
  }

  function Stopped(rec: Record, g: Guest): Guest { Ran(rec, g).(running := g.running) }

  /** The last three calls: password, status, and the record that says ready. A password that the tool reports as not
      set is followed by a stop, which is one more call. */
  function LoginStand(rec: Record, g: Guest, tape: seq<Event>, n: nat): Stand {
    var up := Some(g.(running := true));
    if n == 0 && n < |tape| && tape[0].fault.Failed? then
      Stand(rec, if |tape| == 1 || tape[1].fault.Fine? || tape[1].fault.effect.Everything?
                 then Some(g.(running := false)) else up)
    else if n < 2 then Stand(rec, up)
    else if n == 2 then Stand(if DoneAnyway(tape, 2) then rec.(phase := Ready) else rec, up)
    else Stand(rec.(phase := Ready), up)
  }

  lemma LoginProgress(s: Sys, n: nat)
    requires Live(s.w) && Clean(s.tape, s.w.saved.vmid) && StopsAt(s.tape, n, 3)
    ensures StandOf(LogInAndCommit(s, s.w.saved).s.w)
            == LoginStand(s.w.saved, s.w.guests[s.w.saved.vmid], s.tape, n)
  {
    ArriveClean(s);
    var f1 := SetPassword(s, s.w.saved.vmid);
    PasswordClean(s);
    if n > 0 {
      PasswordGo(s);
      StopsLater(s.tape, n, 3);
      var f2 := Status(f1.s);
      ReadClean(f1.s);
      if n > 1 {
        ReadGo(f1.s);
        StopsLater(f1.s.tape, n - 1, 2);
        ArriveClean(f2.s);
      }
    } else {
      ArriveClean(Arrive(s));
    }
  }

  /** From a clone on: the record that says configuring, the configuration, the start, and the last three calls. */
  function FinishStand(rec: Record, g: Guest, tape: seq<Event>, n: nat): Stand {
    var conf, ready := rec.(phase := Configuring), Stopped(rec, g);
    if n == 0 then Stand(if DoneAnyway(tape, 0) then conf else rec, Some(g))
    else if n == 1 then
      Stand(conf, Some(if DoneAnyway(tape, 1) then ready
                       else if DoneHalfway(tape, 1) then HalfConfigured(rec, g) else g))
    else if n == 2 then Stand(conf, Some(if DoneAnyway(tape, 2) then ready.(running := true) else ready))
    else LoginStand(conf, ready, Later(tape, 3), n - 3)
  }

  lemma LaterTwice(tape: seq<Event>, i: nat, j: nat)
    ensures Later(Later(tape, i), j) == Later(tape, i + j)
  {
  }

  lemma FinishProgress(s: Sys, n: nat)
    requires Cloned(s.w) && Clean(s.tape, s.w.saved.vmid) && StopsAt(s.tape, n, 6)
    ensures StandOf(FinishClone(s, s.w.saved).s.w)
            == FinishStand(s.w.saved, s.w.guests[s.w.saved.vmid], s.tape, n)
  {
    var r := s.w.saved.(phase := Configuring);
    var f1 := Save(s, r);
    SaveClean(s, r);
    if n == 0 { return; }
    SaveGo(s, r);
    assert Cloned(s.w.(saved := r)) && Cloned(f1.s.w);
    StopsLater(s.tape, n, 6);
    FinishFrom(f1.s, n - 1);
    LaterTwice(s.tape, 1, 2);
  }

  /** The configuration and what follows it. */
  lemma FinishFrom(s: Sys, n: nat)
    requires Cloned(s.w) && s.w.saved.phase == Configuring && Clean(s.tape, s.w.saved.vmid) && StopsAt(s.tape, n, 5)
    ensures var rec, g := s.w.saved, s.w.guests[s.w.saved.vmid];
            var end := if Configure(s, rec).Halt? then Configure(s, rec)
                       else if SetRunning(Configure(s, rec).s, rec.vmid, true).Halt? then
                         SetRunning(Configure(s, rec).s, rec.vmid, true)
                       else LogInAndCommit(SetRunning(Configure(s, rec).s, rec.vmid, true).s, rec);
            StandOf(end.s.w)
            == if n == 0 then Stand(rec, Some(if DoneAnyway(s.tape, 0) then Stopped(rec, g)
                                              else if DoneHalfway(s.tape, 0) then HalfConfigured(rec, g) else g))
               else if n == 1 then Stand(rec, Some(if DoneAnyway(s.tape, 1) then Stopped(rec, g).(running := true)
                                                   else Stopped(rec, g)))
               else LoginStand(rec, Stopped(rec, g), Later(s.tape, 2), n - 2)
  {
    var rec, g := s.w.saved, s.w.guests[s.w.saved.vmid];
    var f2 := Configure(s, rec);
    ConfigureClean(s, rec);
    ArriveClean(s);
    if n == 0 { return; }
    ConfigureGo(s);
    StopsLater(s.tape, n, 5);
    var f3 := SetRunning(f2.s, rec.vmid, true);
    StartClean(f2.s);
    ArriveClean(f2.s);
    if n == 1 { return; }
    SwitchGo(f2.s, true);
    StopsLater(f2.s.tape, n - 1, 4);
    LoginProgress(f3.s, n - 2);
    LaterTwice(s.tape, 1, 1);
    assert Stopped(rec, g).(running := true).(running := true) == Stopped(rec, g).(running := true);
  }

  // ----- the whole rebuild ---------------------------------------------------------------------------------------

  /** A clone as it is made: the base's system under the container's name and token, with nothing mounted. */
  function Bare(rec: Record, token: Token, base: Guest): Guest {
    Guest(Lxc, Config(Named(rec.name), true, false, false, Recovery(token), map[], false, false,
                      Disk(rec.storage, if base.config.root == Disk(rec.storage, Subvol, rec.base) then Subvol
                                        else VmDisk, rec.vmid), base.config.memory, base.config.cores),
          false, Baseline)
  }

  /** The record that says cloning, the clone, and what follows it. */
  function CloneStand(rec: Record, token: Token, base: Guest, tape: seq<Event>, n: nat): Stand {
    var cloning := rec.(phase := Cloning);
    if n == 0 then Stand(if DoneAnyway(tape, 0) then cloning else rec, None)
    else if n == 1 then Stand(cloning, if DoneAnyway(tape, 1) then Some(Bare(rec, token, base)) else None)
    else FinishStand(cloning, Bare(rec, token, base), Later(tape, 2), n - 2)
  }

  lemma CloneProgress(s: Sys, token: Token, n: nat)
    requires Gone(s.w) && s.w.saved.token == Some(token) && Clean(s.tape, s.w.saved.vmid) && StopsAt(s.tape, n, 8)
    ensures StandOf(CloneAndFinish(s, s.w.saved).s.w)
            == CloneStand(s.w.saved, token, s.w.guests[s.w.saved.base], s.tape, n)
  {
    var rec := s.w.saved;
    var r := rec.(phase := Cloning);
    var f1 := Save(s, r);
    SaveClean(s, r);
    if n == 0 { return; }
    assert Gone(s.w.(saved := r)) && Gone(f1.s.w) && f1.s.w.guests[rec.base] == s.w.guests[rec.base];
    StopsLater(s.tape, n, 8);
    var f2 := Clone(f1.s, r);
    CloneClean(f1.s, r);
    MadeBare(f1.s, token);
    if n == 1 { return; }
    StopsLater(f1.s.tape, n - 1, 7);
    FinishProgress(f2.s, n - 2);
    LaterTwice(s.tape, 1, 1);
  }

  /** One call of the tool makes it, or not. */
  lemma MadeBare(s: Sys, token: Token)
    requires Gone(s.w) && s.w.saved.token == Some(token) && Clean(s.tape, s.w.saved.vmid)
    ensures var rec, f := s.w.saved, Clone(s, s.w.saved);
            && f.s.w.saved == rec && (f.Go? <==> NextEvent(s).fault.Fine?) && f.s.tape == Later(s.tape, 1)
            && Occupant(f.s.w, rec.vmid) == if NextEvent(s).fault.Fine? || NextEvent(s).fault.effect.Everything?
                                            then Some(Bare(rec, token, s.w.guests[rec.base])) else None
  {
    ArriveClean(s);
    BaseMeans(s.w);
  }

  /** The mounts, the container, and what follows. */
  function ReplaceStand(rec: Record, token: Token, g: Guest, base: Guest, tape: seq<Event>, n: nat): Stand {
    var emptied := WithMounts(g, map[]);
    if n == 0 then
      Stand(rec, Some(if DoneAnyway(tape, 0) then emptied
                      else if DoneHalfway(tape, 0) then WithMounts(g, Retains(rec.name) - {0}) else g))
    else if n == 1 then Stand(rec, if DoneAnyway(tape, 1) then None else Some(emptied))
    else CloneStand(rec, token, base, Later(tape, 2), n - 2)
  }

  lemma ReplaceProgress(s: Sys, token: Token, n: nat)
    requires Begun(s.w) && s.w.saved.token == Some(token) && Clean(s.tape, s.w.saved.vmid) && StopsAt(s.tape, n, 10)
    ensures StandOf(Replace(s, s.w.saved).s.w)
            == ReplaceStand(s.w.saved, token, s.w.guests[s.w.saved.vmid], s.w.guests[s.w.saved.base], s.tape, n)
  {
    var rec := s.w.saved;
    var f1 := DeleteMounts(s, rec.vmid);
    DeletingLeaves(s);
    OwnMeans(s.w);
    ArriveClean(s);
    assert Retains(rec.name).Keys == {0, 1, 2} && Retains(rec.name) - {0, 1, 2} == map[];
    if n == 0 { return; }
    DeleteGo(s);
    StopsLater(s.tape, n, 10);
    var f2 := Destroy(f1.s, rec.vmid);
    DestroyingLeaves(f1.s);
    ArriveClean(f1.s);
    if n == 1 { return; }
    DestroyGo(f1.s);
    StopsLater(f1.s.tape, n - 1, 9);
    CloneProgress(f2.s, token, n - 2);
    LaterTwice(s.tape, 1, 1);
  }

  /** Three reads, the journal, and what follows: fourteen calls in all. */
  function RebuildStand(w: World, token: Token, tape: seq<Event>, n: nat): Stand
    requires w.saved.vmid in w.guests && w.saved.base in w.guests
  {
    var g, base := w.guests[w.saved.vmid], w.guests[w.saved.base];
    var journal := w.saved.(recoveryBase := Some(base.config), token := Some(token), phase := Rebuilding);
    if n < 3 then Stand(w.saved, Some(g))
    else if n == 3 then Stand(if DoneAnyway(tape, 3) then journal else w.saved, Some(g))
    else ReplaceStand(journal, token, g, base, Later(tape, 4), n - 4)
  }

  /** Main theorem: whichever of its calls stops a rebuild, the record on disk and the container are exactly as far as
      that; so nothing is touched before the journal is written, every phase is on disk before its first call, and the
      record says ready only after the password was set and the container was seen to run. */
  lemma RebuildProgress(s: Sys, token: Token, n: nat)
    requires Rebuildable(s.w) && FreshToken(s.w, token) && Clean(s.tape, s.w.saved.vmid) && StopsAt(s.tape, n, 14)
    ensures StandOf(Rebuild(s, token).s.w) == RebuildStand(s.w, token, s.tape, n)
  {
    var t, ok := ChecksPass(s);
    if ok {
      var rec := RebuildRecord(t.w, token);
      var f := Save(t, rec);
      SaveClean(t, rec);
      ArriveClean(t);
      if n > 3 {
        SaveGo(t, rec);
        assert Begun(t.w.(saved := rec)) && Begun(f.s.w);
        CommittedProgress(f.s, token, s.tape, n);
      }
    }
  }

  lemma CommittedProgress(u: Sys, token: Token, tape: seq<Event>, n: nat)
    requires Begun(u.w) && u.w.saved.token == Some(token) && Clean(u.tape, u.w.saved.vmid)
    requires n >= 4 && StopsAt(tape, n, 14) && u.tape == Later(tape, 4)
    ensures StandOf(Replace(u, u.w.saved).s.w)
            == ReplaceStand(u.w.saved, token, u.w.guests[u.w.saved.vmid], u.w.guests[u.w.saved.base], Later(tape, 4),
                            n - 4)
  {
    ReplaceProgress(u, token, n - 4);
  }

  /** The same for a recovery, from a free id or from the clone it finds: three reads, and what is left to do. */
  lemma RecoverProgress(s: Sys, n: nat)
    requires (Gone(s.w) || Cloned(s.w)) && Clean(s.tape, s.w.saved.vmid)
    requires StopsAt(s.tape, n, if Gone(s.w) then 11 else 9)
    ensures var rec, rest := s.w.saved, Later(s.tape, 3);
            StandOf(Recover(s).s.w)
            == if n < 3 then StandOf(s.w)
               else if Gone(s.w) then CloneStand(rec, rec.token.value, s.w.guests[rec.base], rest, n - 3)
               else FinishStand(rec, s.w.guests[rec.vmid], rest, n - 3)
  {
    InspectReads(s);
    var t := Checked(s);
    if n >= 3 {
      if Gone(s.w) { CloneProgress(t, s.w.saved.token.value, n - 3); } else { FinishProgress(t, n - 3); }
    }
  }

  lemma InspectReads(s: Sys)
    requires (Gone(s.w) || Cloned(s.w)) && Clean(s.tape, s.w.saved.vmid)
    ensures var t := Checked(s);
            && Clean(t.tape, s.w.saved.vmid) && t.tape == Later(s.tape, 3) && Alike(s.w, t.w)
            && (FoundAbsent(s) <==> Gone(s.w)) && StandOf(Inspect(s).s.w) == StandOf(s.w)
            && (Inspect(s).Go? <==> FineBefore(s.tape, 3)) && (Inspect(s).Go? ==> Inspect(s).s == t)
  {
    ArriveClean(s);
    ArriveClean(Arrive(s));
    ArriveClean(Arrive(Arrive(s)));
    InspectClean(s);
    InspectFlow(s);
  }
}
