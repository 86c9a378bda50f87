/** The container manager itself: each method drives the record file and the native tools step by step, and is proved
    to end as the protocol function of the same name says. */
module ContainerHost {
  import opened Basics
  import M = ContainerModel
  import P = ContainerProtocol
  import S = ContainerSafety

  class DistroContainers {
    var saved: M.Record
    var guests: map<M.VmId, M.Guest>
    var orphans: set<M.VmId>
    var retained: set<M.Area>
    var tape: seq<M.Event>
    // What the running operation has met, for the theorems only.
    var log: seq<M.Mark>

    constructor (w: M.World, tape: seq<M.Event>)
      ensures Here() == M.Sys(w, tape)
    {
      saved, guests, orphans, retained := w.saved, w.guests, w.orphans, w.retained;
      this.tape, log := tape, [];
    }

    function World(): M.World
      reads this
    { M.World(saved, guests, orphans, retained) }

    function Here(): M.Sys
      reads this
    { M.Sys(World(), tape, log) }

    ghost predicate EndedAs(ok: bool, f: M.Flow)
      reads this
    { (ok <==> f.Go?) && Here() == f.s }

    // ----- the outside world -------------------------------------------------------------------------------------

    /** One event passes: other users may take free ids, and the coming call learns its fault. */
    method NextCall() returns (fault: M.Fault)
      modifies this
      ensures Here() == M.Arrive(old(Here())) && fault == M.NextEvent(old(Here())).fault
    {
      var event := M.NextEvent(Here());
      fault := event.fault;
      var newcomers := M.Newcomers(World(), event.arrivals);
      if newcomers != map[] { log := log + [M.Admitted(newcomers)]; }
      guests := guests + newcomers;
      if tape != [] { tape := tape[1..]; }
    }

    method Note(verb: M.Verb, vmid: M.VmId, accepted: bool)
      modifies this`log
      ensures Here() == M.Noted(old(Here()), verb, vmid, accepted)
    {
      log := log + [M.Called(verb, vmid, M.Occupant(World(), vmid), accepted)];
    }

    method Query() returns (ok: bool)
      modifies this
      ensures EndedAs(ok, M.Read(old(Here())))
    {
      var fault := NextCall();
      ok := fault.Fine?;
    }

    method SaveRecord(record: M.Record) returns (ok: bool)
      modifies this
      ensures EndedAs(ok, M.Save(old(Here()), record))
    {
      var fault := NextCall();
      if fault.Fine? || fault.effect.Everything? { saved := record; }
      ok := fault.Fine?;
    }

    method PctDeleteMounts(vmid: M.VmId) returns (ok: bool)
      modifies this
      ensures EndedAs(ok, M.DeleteMounts(old(Here()), vmid))
    {
      var fault := NextCall();
      if !M.Editable(World(), vmid) || guests[vmid].running {
        Note(M.SetVerb, vmid, false);
        return false;
      }
      Note(M.SetVerb, vmid, true);
      var g := guests[vmid];
      if fault.Fine? || fault.effect.Everything? {
        guests := guests[vmid := M.WithMounts(g, g.config.mounts - {0, 1, 2})];
      } else if !fault.effect.Nothing? {
        guests := guests[vmid := M.WithMounts(g, g.config.mounts - {0})];
      }
      ok := fault.Fine?;
    }

    method PctDestroy(vmid: M.VmId) returns (ok: bool)
      modifies this
      ensures EndedAs(ok, M.Destroy(old(Here()), vmid))
    {
      var fault := NextCall();
      if !M.Editable(World(), vmid) || guests[vmid].running {
        Note(M.DestroyVerb, vmid, false);
        return false;
      }
      Note(M.DestroyVerb, vmid, true);
      if fault.Fine? || fault.effect.Everything? || fault.effect.Torn? {
        retained := retained - M.Listed(guests[vmid]);
        guests := guests - {vmid};
      }
      if !fault.Fine? && fault.effect.Torn? { orphans := orphans + {vmid}; }
      ok := fault.Fine?;
    }

    method PctClone(record: M.Record) returns (ok: bool)
      modifies this
      ensures EndedAs(ok, M.Clone(old(Here()), record))
    {
      var fault := NextCall();
      if record.vmid in guests || !M.IsTemplate(World(), record.base) {
        Note(M.CloneVerb, record.vmid, false);
        return false;
      }
      Note(M.CloneVerb, record.vmid, true);
      var made := M.CloneOf(guests[record.base], record);
      if fault.Fine? || fault.effect.Everything? {
        guests := guests[record.vmid := made];
      } else if fault.effect.Torn? {
        guests := guests[record.vmid := made.(config := made.config.(locked := true))];
      }
      ok := fault.Fine?;
    }

    method PctConfigure(record: M.Record) returns (ok: bool)
      modifies this
      ensures EndedAs(ok, M.Configure(old(Here()), record))
    {
      var fault := NextCall();
      if !M.Editable(World(), record.vmid) {
        Note(M.SetVerb, record.vmid, false);
        return false;
      }
      Note(M.SetVerb, record.vmid, true);
      var g := guests[record.vmid];
      var sized := g.(config := g.config.(memory := record.memory, cores := record.cpus));
      if fault.Fine? || fault.effect.Everything? {
        guests := guests[record.vmid := M.WithMounts(sized, g.config.mounts + M.OwnMounts(record.name))];
      } else if !fault.effect.Nothing? {
        guests := guests[record.vmid :=
          M.WithMounts(sized, g.config.mounts[0 := M.OwnMount(record.name, M.Home)])];
      }
      ok := fault.Fine?;
    }

    method PctSwitch(vmid: M.VmId, on: bool) returns (ok: bool)
      modifies this
      ensures EndedAs(ok, M.SetRunning(old(Here()), vmid, on))
    {
      var fault := NextCall();
      if !M.Editable(World(), vmid) || guests[vmid].running == on || guests[vmid].config.template {
        Note(M.SwitchVerb, vmid, false);
        return false;
      }
      Note(M.SwitchVerb, vmid, true);
      if fault.Fine? || fault.effect.Everything? {
        guests := guests[vmid := guests[vmid].(running := on)];
      }
      ok := fault.Fine?;
    }

    method ExecPassword(vmid: M.VmId) returns (ok: bool)
      modifies this
      ensures EndedAs(ok, M.SetPassword(old(Here()), vmid))
    {
      var fault := NextCall();
      Note(M.ExecVerb, vmid, vmid in guests && guests[vmid].running);
      if fault.Killed? { return false; }
      if fault.Fine? && vmid in guests && guests[vmid].running { return true; }
      // Nobody can log in yet, so the container must not stay up.
      var _ := PctSwitch(vmid, false);
      ok := false;
    }

    method PctStatus() returns (ok: bool, running: bool)
      modifies this
      ensures EndedAs(ok, M.Status(old(Here())))
      ensures ok ==> running == M.Running(World(), saved.vmid)
    {
      running := false;
      ok := Query();
      if !ok { return; }
      ok := saved.vmid in guests && guests[saved.vmid].kind == M.Lxc;
      running := ok && guests[saved.vmid].running;
    }

    // ----- the protocol ------------------------------------------------------------------------------------------

    method Managed() returns (ok: bool)
      modifies this
      ensures EndedAs(ok, P.Managed(old(Here())))
    {
      ok := Query();
      if ok { ok := P.ManagedWorld(World()); }
    }

    method FinishClone(given: M.Record) returns (ok: bool)
      modifies this
      ensures EndedAs(ok, P.FinishClone(old(Here()), given))
    {
      var record := given;
      if record.token.Some? {
        record := record.(phase := M.Configuring);
        ok := SaveRecord(record);
        if !ok { return; }
      }
      ok := PctConfigure(record);
      if !ok { return; }
      ok := PctSwitch(record.vmid, true);
      if !ok { return; }
      ok := LogInAndCommit(record);
    }

    method LogInAndCommit(given: M.Record) returns (ok: bool)
      modifies this
      ensures EndedAs(ok, P.LogInAndCommit(old(Here()), given))
    {
      ok := ExecPassword(given.vmid);
      if !ok { return; }
      var running;
      ok, running := PctStatus();
      if !ok { return; }
      if !M.Running(World(), given.vmid) { return false; }
      ok := SaveRecord(given.(phase := M.Ready));
    }

    method CloneAndFinish(given: M.Record) returns (ok: bool)
      modifies this
      ensures EndedAs(ok, P.CloneAndFinish(old(Here()), given))
    {
      var record := given;
      if record.token.Some? {
        record := record.(phase := M.Cloning);
        ok := SaveRecord(record);
        if !ok { return; }
      }
      ok := PctClone(record);
      if !ok { return; }
      ok := FinishClone(record);
    }

    method Rebuild(token: M.Token) returns (ok: bool)
      modifies this
      ensures EndedAs(ok, P.Rebuild(old(Here()), token))
    {
      ok := Managed();
      if !ok { return; }
      var running;
      ok, running := PctStatus();
      if !ok { return; }
      if running { return false; }
      ok := Query();
      if !ok { return; }
      if !P.BasePresent(World()) { return false; }
      var record := saved.(recoveryBase := Some(guests[saved.base].config));
      record := record.(token := Some(token));
      record := record.(phase := M.Rebuilding);
      ok := SaveRecord(record);
      if !ok { return; }
      ok := Replace(record);
    }

    method Replace(record: M.Record) returns (ok: bool)
      modifies this
      ensures EndedAs(ok, P.Replace(old(Here()), record))
    {
      ok := PctDeleteMounts(record.vmid);
      if !ok { return; }
      ok := PctDestroy(record.vmid);
      if !ok { return; }
      ok := CloneAndFinish(record);
    }

    method Inspect() returns (ok: bool, absent: bool)
      modifies this
      ensures EndedAs(ok, P.Inspect(old(Here())))
      ensures ok ==> absent == P.FoundAbsent(old(Here()))
    {
      absent := false;
      ok := Query();
      if !ok { return; }
      if !P.Journalled(World()) { return false, false; }
      ok := Query();
      if !ok { return; }
      absent := saved.vmid !in guests;
      ok := Query();
      if !ok { return; }
      ok := if absent then saved.vmid !in orphans else P.PartialClone(saved, guests[saved.vmid]);
    }

    method Recover() returns (ok: bool)
      modifies this
      ensures EndedAs(ok, P.Recover(old(Here())))
    {
      var absent;
      ok, absent := Inspect();
      if !ok { return; }
      if absent {
        ok := CloneAndFinish(saved);
      } else {
        ok := FinishClone(saved);
      }
    }

    method Start() returns (ok: bool)
      modifies this
      ensures EndedAs(ok, P.Start(old(Here())))
    {
      ok := Managed();
      if !ok { return; }
      if saved.phase != M.Ready { return false; }
      ok := PctSwitch(saved.vmid, true);
      if !ok { return; }
      var running;
      ok, running := PctStatus();
      ok := ok && running;
    }

    method Shutdown() returns (ok: bool)
      modifies this
      ensures EndedAs(ok, P.Shutdown(old(Here())))
    {
      ok := Managed();
      if !ok { return; }
      ok := PctSwitch(saved.vmid, false);
      if !ok { return; }
      var running;
      ok, running := PctStatus();
      ok := ok && !running;
    }

    /** Any history of operations, each under its own faults and arrivals, carried out on this host. */
    method RunHistory(ops: seq<(P.Op, seq<M.Event>)>)
      requires S.Calm(World())
      modifies this
      ensures World() == P.History(old(World()), ops)
      ensures S.Safe(old(World()), World())
      ensures forall i :: 0 <= i < |P.HistoryLog(old(World()), ops)| ==>
                S.Good(P.HistoryLog(old(World()), ops)[i], World())
    {
      ghost var start := World();
      var i := 0;
      while i < |ops|
        invariant 0 <= i <= |ops|
        invariant P.History(start, ops) == P.History(World(), ops[i..])
        decreases |ops| - i
      {
        tape, log := ops[i].1, [];
        match ops[i].0 {
          case DoRebuild(token) => var _ := Rebuild(token);
          case DoRecover => var _ := Recover();
          case DoStart => var _ := Start();
          case DoShutdown => var _ := Shutdown();
        }
        assert ops[i..][1..] == ops[i + 1..];
        i := i + 1;
      }
      S.HistorySafe(start, ops);
    }
  }
}
