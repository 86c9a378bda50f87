/** What the container protocol can see and change: the saved record, the native inventory and the retained
    directories; and the native tools, each of which may fail or be interrupted with a partial effect. */
module ContainerModel {
  import opened Basics

  type VmId = nat
  type Token = string

  datatype Area = Home | Root | Data
  const ALL_AREAS: set<Area> := {Home, Root, Data}

  // ----- native guests -------------------------------------------------------------------------------------------

  datatype Source = Retained(owner: string, area: Area) | Elsewhere(path: string)
  datatype Target = At(area: Area) | AtOther(path: string)
  datatype Mount = Mount(source: Source, target: Target)
  datatype Hostname = Named(name: string) | BaseOf(vmid: VmId)
  datatype RootKind = VmDisk | Subvol | BaseDisk
  datatype RootFs = Disk(storage: string, kind: RootKind, vmid: VmId) | OtherRoot
  datatype Note = NoNote | Text(text: string) | Recovery(token: Token)

  datatype Config = Config(hostname: Hostname, unprivileged: bool, template: bool, locked: bool, note: Note,
                           mounts: map<nat, Mount>, unusedDisks: bool, idmap: bool, root: RootFs,
                           memory: nat, cores: nat)

  datatype Kind = Lxc | Qemu
  // `maker` is never read by the protocol: it says who really created a guest.
  datatype Maker = Baseline | Stranger
  datatype Guest = Guest(kind: Kind, config: Config, running: bool, maker: Maker)

  // ----- the journalled record -----------------------------------------------------------------------------------

  datatype Phase = Creating | Ready | Rebuilding | Cloning | Configuring
  datatype Record = Record(name: string, vmid: VmId, base: VmId, storage: string, memory: nat, cpus: nat,
                           phase: Phase, token: Option<Token>, recoveryBase: Option<Config>)

  // `orphans` are the ids for which the OS storage still lists volumes that no guest owns.
  datatype World = World(saved: Record, guests: map<VmId, Guest>, orphans: set<VmId>, retained: set<Area>)

  // ----- faults and arrivals -------------------------------------------------------------------------------------

  // How much of a call's effect took place before it failed or the host went down: `Partly` is a `pct set` that got
  // only through its first mount, `Torn` also a clone left locked and a destroy that left its OS volume behind.
  datatype Effect = Nothing | Everything | Partly | Torn
  datatype Fault = Fine | Failed(effect: Effect) | Killed(effect: Effect)
  // One event per save or native call: guests that other users create first, then the fault of the call itself.
  datatype Event = Event(arrivals: map<VmId, Guest>, fault: Fault)
  const QUIET := Event(map[], Fine)

  // What the calls of an operation met, for the theorems only: guests that other users created, and every call that
  // would change a guest, with the occupant of its id at that moment and whether the tool took it on.
  datatype Verb = SetVerb | DestroyVerb | CloneVerb | SwitchVerb | ExecVerb
  datatype Mark = Admitted(guests: map<VmId, Guest>)
                | Called(verb: Verb, id: VmId, occupant: Option<Guest>, accepted: bool)

  datatype Sys = Sys(w: World, tape: seq<Event>, log: seq<Mark> := [])

  /** The outcome of an operation: it went on, or it stopped (error raised, or process gone). */
  datatype Flow = Go(s: Sys) | Halt(s: Sys) {
    predicate IsFailure() { Halt? }
    function PropagateFailure(): Flow
      requires Halt?
    { this }
    function Extract(): Sys
      requires Go?
    { s }
  }

  function NextEvent(s: Sys): Event { if s.tape == [] then QUIET else s.tape[0] }

  /** Other users never bind this container's retained directories and do not know its current token. */
  predicate IsStranger(g: Guest, rec: Record) {
    && g.maker == Stranger
    && (forall k :: k in g.config.mounts ==> !g.config.mounts[k].source.Retained?)
    && (rec.token.Some? ==> g.config.note != Recovery(rec.token.value))
  }

  function Newcomers(w: World, arrivals: map<VmId, Guest>): map<VmId, Guest> {
    map id | id in arrivals && id !in w.guests && IsStranger(arrivals[id], w.saved) :: arrivals[id]
  }

  /** Consumes one event: other users may take any id that is free. */
  function Arrive(s: Sys): Sys {
    var newcomers := Newcomers(s.w, NextEvent(s).arrivals);
    Sys(s.w.(guests := s.w.guests + newcomers),
        if s.tape == [] then [] else s.tape[1..],
        if newcomers == map[] then s.log else s.log + [Admitted(newcomers)])
  }

  function Occupant(w: World, id: VmId): Option<Guest> { if id in w.guests then Some(w.guests[id]) else None }

  function Noted(t: Sys, verb: Verb, id: VmId, accepted: bool): Sys {
    t.(log := t.log + [Called(verb, id, Occupant(t.w, id), accepted)])
  }

  /** How a call ends, given the state it started from and the states after its full and its two partial effects. */
  function Conclude(t: Sys, fault: Fault, done: World, partly: World, torn: World): Flow {
    if fault.Fine? then Go(t.(w := done))
    else match fault.effect
      case Nothing => Halt(t)
      case Everything => Halt(t.(w := done))
      case Partly => Halt(t.(w := partly))
      case Torn => Halt(t.(w := torn))
  }

  // ----- saves and native calls ----------------------------------------------------------------------------------

  /** A read-only command. */
  function Read(s: Sys): Flow {
    var t := Arrive(s);
    if NextEvent(s).fault.Fine? then Go(t) else Halt(t)
  }

  /** Durable replacement of the record file: atomic, so a partial effect is no effect. */
  function Save(s: Sys, rec: Record): Flow {
    var t := Arrive(s);
    Conclude(t, NextEvent(s).fault, t.w.(saved := rec), t.w, t.w)
  }

  predicate Editable(w: World, id: VmId) { id in w.guests && w.guests[id].kind == Lxc && !w.guests[id].config.locked }

  function WithGuest(w: World, id: VmId, g: Guest): World { w.(guests := w.guests[id := g]) }

  function WithMounts(g: Guest, mounts: map<nat, Mount>): Guest { g.(config := g.config.(mounts := mounts)) }

  /** `pct set <id> --delete mp0,mp1,mp2`; interrupted, it may have dropped only the first mount. */
  function DeleteMounts(s: Sys, id: VmId): Flow {
    var t := Arrive(s);
    if !Editable(t.w, id) || t.w.guests[id].running then Halt(Noted(t, SetVerb, id, false))
    else
      var g := t.w.guests[id];
      var partly := WithGuest(t.w, id, WithMounts(g, g.config.mounts - {0}));
      Conclude(Noted(t, SetVerb, id, true), NextEvent(s).fault,
               WithGuest(t.w, id, WithMounts(g, g.config.mounts - {0, 1, 2})), partly, partly)
  }

  /** The retained directories a guest still lists. */
  function Listed(g: Guest): set<Area> {
    set k | k in g.config.mounts && g.config.mounts[k].source.Retained? :: g.config.mounts[k].source.area
  }

  /** `pct destroy <id> --purge 1`, at its worst: every directory still listed as a mount is lost with the guest.
      Interrupted, it may leave the guest's OS volume behind without an owner. */
  function Destroy(s: Sys, id: VmId): Flow {
    var t := Arrive(s);
    if !Editable(t.w, id) || t.w.guests[id].running then Halt(Noted(t, DestroyVerb, id, false))
    else
      var gone := t.w.(guests := t.w.guests - {id}, retained := t.w.retained - Listed(t.w.guests[id]));
      Conclude(Noted(t, DestroyVerb, id, true), NextEvent(s).fault, gone, t.w, gone.(orphans := gone.orphans + {id}))
  }

  function CloneOf(base: Guest, rec: Record): Guest
    requires base.config.root.Disk?
  {
    Guest(Lxc,
          base.config.(hostname := Named(rec.name), template := false, mounts := map[],
                       note := if rec.token.Some? then Recovery(rec.token.value) else NoNote,
                       root := Disk(base.config.root.storage,
                                    if base.config.root.kind == BaseDisk then VmDisk else base.config.root.kind,
                                    rec.vmid)),
          false, Baseline)
  }

  predicate IsTemplate(w: World, id: VmId) {
    id in w.guests && w.guests[id].kind == Lxc && w.guests[id].config.template && w.guests[id].config.root.Disk?
  }

  /** `pct clone <base> <id> --full 0 ...`: refused natively when the id is taken. Interrupted, it may leave a locked
      guest. */
  function Clone(s: Sys, rec: Record): Flow {
    var t := Arrive(s);
    if rec.vmid in t.w.guests || !IsTemplate(t.w, rec.base) then Halt(Noted(t, CloneVerb, rec.vmid, false))
    else
      var made := CloneOf(t.w.guests[rec.base], rec);
      Conclude(Noted(t, CloneVerb, rec.vmid, true), NextEvent(s).fault,
               WithGuest(t.w, rec.vmid, made),
               t.w,
               WithGuest(t.w, rec.vmid, made.(config := made.config.(locked := true))))
  }

  function OwnMount(name: string, area: Area): Mount { Mount(Retained(name, area), At(area)) }

  function OwnMounts(name: string): map<nat, Mount> {
    map[0 := OwnMount(name, Home), 1 := OwnMount(name, Root), 2 := OwnMount(name, Data)]
  }

  /** `pct set <id> --memory .. --cores .. --mp0 .. --mp1 .. --mp2 ..`; interrupted, it may have added only mp0. */
  function Configure(s: Sys, rec: Record): Flow {
    var t := Arrive(s);
    if !Editable(t.w, rec.vmid) then Halt(Noted(t, SetVerb, rec.vmid, false))
    else
      var g := t.w.guests[rec.vmid];
      var sized := g.(config := g.config.(memory := rec.memory, cores := rec.cpus));
      var partly := WithGuest(t.w, rec.vmid, WithMounts(sized, g.config.mounts[0 := OwnMount(rec.name, Home)]));
      Conclude(Noted(t, SetVerb, rec.vmid, true), NextEvent(s).fault,
               WithGuest(t.w, rec.vmid, WithMounts(sized, g.config.mounts + OwnMounts(rec.name))), partly, partly)
  }

  function SetRunning(s: Sys, id: VmId, on: bool): Flow {
    var t := Arrive(s);
    if !Editable(t.w, id) || t.w.guests[id].running == on || t.w.guests[id].config.template
    then Halt(Noted(t, SwitchVerb, id, false))
    else Conclude(Noted(t, SwitchVerb, id, true), NextEvent(s).fault,
                  WithGuest(t.w, id, t.w.guests[id].(running := on)), t.w, t.w)
  }

  /** `pct exec <id> -- chpasswd -e`: a reported failure stops the guest before the error is raised. */
  function SetPassword(s: Sys, id: VmId): Flow {
    var arrived := Arrive(s);
    var t := Noted(arrived, ExecVerb, id, id in arrived.w.guests && arrived.w.guests[id].running);
    match NextEvent(s).fault
    case Fine => if id in t.w.guests && t.w.guests[id].running then Go(t) else Halt(SetRunning(t, id, false).s)
    case Failed(_) => Halt(SetRunning(t, id, false).s)
    case Killed(_) => Halt(t)
  }

  predicate Running(w: World, id: VmId) { id in w.guests && w.guests[id].running }

  /** `pct status <id>`. */
  function Status(s: Sys): Flow {
    var t :- Read(s);
    if t.w.saved.vmid in t.w.guests && t.w.guests[t.w.saved.vmid].kind == Lxc then Go(t) else Halt(t)
  }
}
