/** The rebuild and recovery protocol as functions of the world and of the faults and arrivals still to come. */
module ContainerProtocol {
  import opened Basics
  import opened ContainerModel

  // ----- ownership checks ----------------------------------------------------------------------------------------

  /** Root volumes a container of this record may have. */
  predicate OwnRoot(rec: Record, root: RootFs) {
    root.Disk? && root.storage == rec.storage && root.vmid == rec.vmid && root.kind != BaseDisk
  }

  /** The identity a live container must show before it is started, shut down or rebuilt. */
  predicate ManagedGuest(rec: Record, g: Guest) {
    && g.kind == Lxc
    && g.config.hostname == Named(rec.name)
    && g.config.unprivileged
    && g.config.mounts == OwnMounts(rec.name)
    && !g.config.unusedDisks
    && !g.config.idmap
    && OwnRoot(rec, g.config.root)
  }

  predicate ManagedWorld(w: World) {
    && w.saved.vmid in w.guests
    && ManagedGuest(w.saved, w.guests[w.saved.vmid])
    && w.retained == ALL_AREAS
  }

  predicate ValidBase(rec: Record, g: Guest) {
    && g.kind == Lxc
    && g.config.hostname == BaseOf(rec.base)
    && g.config.template
    && g.config.unprivileged
    && g.config.root.Disk?
    && g.config.root.storage == rec.storage
    && g.config.root.vmid == rec.base
    && g.config.root.kind != VmDisk
    && g.config.mounts == map[]
    && !g.config.unusedDisks
    && !g.config.idmap
    && !g.config.locked
  }

  predicate BasePresent(w: World) { w.saved.base in w.guests && ValidBase(w.saved, w.guests[w.saved.base]) }

  /** A rebuild journal that recovery accepts. */
  predicate Journalled(w: World) {
    && w.saved.phase in {Rebuilding, Cloning, Configuring}
    && w.saved.token.Some?
    && w.saved.recoveryBase.Some?
    && w.retained == ALL_AREAS
    && BasePresent(w)
    && w.guests[w.saved.base].config == w.saved.recoveryBase.value
  }

  /** A clone that this journal's token proves to be ours, stopped, with no mount but the retained ones. */
  predicate PartialClone(rec: Record, g: Guest) {
    && g.kind == Lxc
    && !g.running
    && rec.token.Some?
    && g.config.note == Recovery(rec.token.value)
    && g.config.hostname == Named(rec.name)
    && g.config.unprivileged
    && !g.config.template
    && !g.config.locked
    && !g.config.idmap
    && !g.config.unusedDisks
    && OwnRoot(rec, g.config.root)
    && (forall k :: k in g.config.mounts ==> k in OwnMounts(rec.name) && g.config.mounts[k] == OwnMounts(rec.name)[k])
  }

  // ----- operations ----------------------------------------------------------------------------------------------

  function Managed(s: Sys): Flow {
    var t :- Read(s);
    if ManagedWorld(t.w) then Go(t) else Halt(t)
  }

  /** The end of every clone: set the password, check that the container runs, mark the record ready. */
  function LogInAndCommit(s: Sys, r: Record): Flow {
    var s1 :- SetPassword(s, r.vmid);
    var s2 :- Status(s1);
    if !Running(s2.w, r.vmid) then Halt(s2) else Save(s2, r.(phase := Ready))
  }

  function FinishClone(s: Sys, rec: Record): Flow {
    var r := if rec.token.Some? then rec.(phase := Configuring) else rec;
    var s1 :- if rec.token.Some? then Save(s, r) else Go(s);
    var s2 :- Configure(s1, r);
    var s3 :- SetRunning(s2, r.vmid, true);
    LogInAndCommit(s3, r)
  }

  function CloneAndFinish(s: Sys, rec: Record): Flow {
    var r := if rec.token.Some? then rec.(phase := Cloning) else rec;
    var s1 :- if rec.token.Some? then Save(s, r) else Go(s);
    var s2 :- Clone(s1, r);
    FinishClone(s2, r)
  }

  /** The record a rebuild writes before it touches the native container. */
  function RebuildRecord(w: World, token: Token): Record
    requires w.saved.base in w.guests
  {
    w.saved.(recoveryBase := Some(w.guests[w.saved.base].config), token := Some(token), phase := Rebuilding)
  }

  /** The destructive half of a rebuild, once its journal is saved. */
  function Replace(s: Sys, rec: Record): Flow {
    var s1 :- DeleteMounts(s, rec.vmid);
    var s2 :- Destroy(s1, rec.vmid);
    CloneAndFinish(s2, rec)
  }

  function Rebuild(s: Sys, token: Token): Flow {
    var s1 :- Managed(s);
    var s2 :- Status(s1);
    if Running(s2.w, s2.w.saved.vmid) then Halt(s2)
    else
      var s3 :- Read(s2);
      if !BasePresent(s3.w) then Halt(s3)
      else
        var rec := RebuildRecord(s3.w, token);
        var s4 :- Save(s3, rec);
        Replace(s4, rec)
  }

  /** The inventory reads of recovery: base, cluster inventory, then leftover volumes or the occupant's config. */
  function Inspect(s: Sys): Flow {
    var s1 :- Read(s);
    if !Journalled(s1.w) then Halt(s1)
    else
      var s2 :- Read(s1);
      var id := s2.w.saved.vmid;
      var s3 :- Read(s2);
      if id !in s2.w.guests then (if id in s3.w.orphans then Halt(s3) else Go(s3))
      else if PartialClone(s3.w.saved, s3.w.guests[id]) then Go(s3)
      else Halt(s3)
  }

  /** Whether recovery found no container under its id when it read the inventory. */
  predicate FoundAbsent(s: Sys) { s.w.saved.vmid !in Arrive(Arrive(s)).w.guests }

  function Recover(s: Sys): Flow {
    var t :- Inspect(s);
    if FoundAbsent(s) then CloneAndFinish(t, t.w.saved) else FinishClone(t, t.w.saved)
  }

  function Start(s: Sys): Flow {
    var s1 :- Managed(s);
    if s1.w.saved.phase != Ready then Halt(s1)
    else
      var s2 :- SetRunning(s1, s1.w.saved.vmid, true);
      var s3 :- Status(s2);
      if Running(s3.w, s3.w.saved.vmid) then Go(s3) else Halt(s3)
  }

  function Shutdown(s: Sys): Flow {
    var s1 :- Managed(s);
    var s2 :- SetRunning(s1, s1.w.saved.vmid, false);
    var s3 :- Status(s2);
    if Running(s3.w, s3.w.saved.vmid) then Halt(s3) else Go(s3)
  }

  datatype Op = DoRebuild(token: Token) | DoRecover | DoStart | DoShutdown

  function Perform(s: Sys, op: Op): Flow {
    match op
    case DoRebuild(token) => Rebuild(s, token)
    case DoRecover => Recover(s)
    case DoStart => Start(s)
    case DoShutdown => Shutdown(s)
  }

  /** A history: each operation is given its own faults and arrivals, and the next one starts from what is left. */
  function History(w: World, ops: seq<(Op, seq<Event>)>): World
    decreases |ops|
  {
    if ops == [] then w else History(Perform(Sys(w, ops[0].1), ops[0].0).s.w, ops[1..])
  }

  /** Everything the operations of a history met. */
  function HistoryLog(w: World, ops: seq<(Op, seq<Event>)>): seq<Mark>
    decreases |ops|
  {
    if ops == [] then []
    else
      var next := Perform(Sys(w, ops[0].1), ops[0].0).s;
      next.log + HistoryLog(next.w, ops[1..])
  }
}
