/** Stamping a drive with an installer GUID and laying Baseline's volumes out on it, tool call by tool call. */
module DriveProtocol {
  import opened Basics
  import opened DriveGuard
  import opened Text

  // How much of a tool's effect took place although it failed, or the process died.
  datatype Effect = Nothing | Everything | Residue
  // `Ignored`: the tool reports success and has done nothing.
  datatype Fault = Fine | Ignored | Failed(effect: Effect) | Killed(effect: Effect)

  // What partitions show before they are formatted: remains of whatever was there.
  datatype Scrap = Scrap(fstype: string, tag: string)
  const BARE := Scrap("", "")

  // One event per tool call: its fault, the GUID a new partition table gets, and the scraps in new partitions.
  datatype Event = Event(fault: Fault, guid: string, scraps: seq<Scrap>)
  const QUIET := Event(Fine, "", [])

  datatype Tool = Wipe | Zap | Partition(count: nat) | Format(index: nat, tag: string) | SetGuid(guid: string)

  // `ran` lists the tools that were started on the drive, for the theorems only.
  datatype Sys = Sys(drive: Drive, registry: set<string>, tape: seq<Event>, ran: seq<Tool> := [])

  /** Succeeded, was refused or failed, or the process is gone. */
  datatype Flow = Go(s: Sys) | Halt(s: Sys) | Dead(s: Sys) {
    predicate IsFailure() { !Go? }
    function PropagateFailure(): Flow
      requires !Go?
    { this }
    function Extract(): Sys
      requires Go?
    { s }
  }

  function NextEvent(s: Sys): Event { if s.tape == [] then QUIET else s.tape[0] }
  function Later(s: Sys): Sys { s.(tape := if s.tape == [] then [] else s.tape[1..]) }

  // ----- single calls --------------------------------------------------------------------------------------------

  /** A check of the device outside this model: the mount list, or `validate_target_device`. */
  function Check(s: Sys): Flow {
    match NextEvent(s).fault
    case Fine | Ignored => Go(Later(s))
    case Failed(_) => Halt(Later(s))
    case Killed(_) => Dead(Later(s))
  }

  /** Reading the drive: a failure is not an error but an unknown state. */
  function Look(s: Sys): DriveState {
    if NextEvent(s).fault.Fine? then Seen(s.drive) else UNKNOWN
  }

  function Looked(s: Sys): Flow { if NextEvent(s).fault.Killed? then Dead(Later(s)) else Go(Later(s)) }

  function ScrapAt(e: Event, i: nat): Scrap { if i < |e.scraps| then e.scraps[i] else BARE }

  function NewPart(scrap: Scrap): Child { Child("part", "part", scrap.fstype, scrap.tag) }

  function WithChild(d: Drive, i: nat, c: Child): Drive {
    if i < |d.children| then d.(children := d.children[i := c]) else d
  }

  function Blank(d: Drive): Drive { Drive(d.name, "", "", []) }

  function Done(tool: Tool, d: Drive, e: Event): Drive {
    match tool
    case Wipe | Zap => Blank(d)
    case Partition(count) => Drive(d.name, "", e.guid, seq(count, i requires 0 <= i < count => NewPart(ScrapAt(e, i))))
    case Format(index, tag) => WithChild(d, index, NewPart(Scrap("ext4", tag)))
    case SetGuid(guid) => d.(guid := guid)
  }

  /** Only an interrupted `mkfs` leaves something in between. */
  function Part(tool: Tool, d: Drive, e: Event): Drive {
    if tool.Format? then WithChild(d, tool.index, NewPart(ScrapAt(e, 0))) else d
  }

  function Affected(tool: Tool, d: Drive, e: Event): Drive {
    match e.fault
    case Fine => Done(tool, d, e)
    case Ignored => d
    case Failed(effect) => WithEffect(tool, d, e, effect)
    case Killed(effect) => WithEffect(tool, d, e, effect)
  }

  function WithEffect(tool: Tool, d: Drive, e: Event, effect: Effect): Drive {
    match effect
    case Nothing => d
    case Everything => Done(tool, d, e)
    case Residue => Part(tool, d, e)
  }

  function RunTool(s: Sys, tool: Tool): Flow {
    var e := NextEvent(s);
    var t := Later(s).(drive := Affected(tool, s.drive, e), ran := s.ran + [tool]);
    match e.fault
    case Fine | Ignored => Go(t)
    case Failed(_) => Halt(t)
    case Killed(_) => Dead(t)
  }

  /** Adding a GUID to the durable registry. */
  function Register(s: Sys, guid: string): Flow {
    var fault, t := NextEvent(s).fault, Later(s);
    var added := t.(registry := t.registry + {guid});
    match fault
    case Fine | Ignored => Go(added)
    case Failed(effect) => Halt(if effect.Everything? then added else t)
    case Killed(effect) => Dead(if effect.Everything? then added else t)
  }

  // ----- stamping ------------------------------------------------------------------------------------------------

  function Stamp(s: Sys, guid: string): Flow {
    var t :- Looked(s);
    var state := Look(s);
    if !state.known then Halt(t)
    else if state.guid.Some? && IsInstallerGuid(t.registry, state.guid.value) then Go(t)
    else if state.hasData && !IsBaselineOnly(state) then Halt(t)
    else Adopt(t, guid)
  }

  /** Sets the identifier, reads the drive again, and registers the identifier if the drive took it. */
  function Adopt(s: Sys, guid: string): Flow {
    var t :- RunTool(s, SetGuid(guid));
    var u :- Looked(t);
    var found := Look(t);
    if !found.known || found.guid.None? || Lower(found.guid.value) != guid then Halt(u) else Register(u, guid)
  }

  // ----- laying out ----------------------------------------------------------------------------------------------

  function Formats(tags: seq<string>, from: nat): seq<Tool>
    requires from <= |tags|
    decreases |tags| - from
  { if from == |tags| then [] else [Format(from, tags[from])] + Formats(tags, from + 1) }

  function Steps(tags: seq<string>): seq<Tool> { [Wipe, Zap, Partition(|tags|)] + Formats(tags, 0) }

  /** Every destructive step, each after the device has been validated once more. */
  function RunSteps(s: Sys, steps: seq<Tool>): Flow
    decreases |steps|
  {
    if steps == [] then Go(s)
    else
      var t :- Check(s);
      var u :- RunTool(t, steps[0]);
      RunSteps(u, steps[1..])
  }

  function Apply(s: Sys, tags: Option<seq<string>>): Flow {
    var t :- Check(s);
    var u :- Looked(t);
    if !IsBaselineOnly(Look(t)) then Halt(u)
    else
      var v :- Looked(u);
      if !MayFormat(Look(u), u.registry) || tags.None? then Halt(v) else RunSteps(v, Steps(tags.value))
  }

  /** Erase, partition, format, stamp. `tags` are the planned labels, if the drive is large enough for a plan; the
      layout is reported as done whatever comes of the stamp. */
  function LayOut(s: Sys, confirmed: bool, tags: Option<seq<string>>, guid: string): Flow {
    if !confirmed then Halt(s)
    else
      var mounts :- Check(s);
      var applied :- Apply(mounts, tags);
      var validated :- Check(applied);
      var stamped := Stamp(validated, guid);
      if stamped.Dead? then stamped else Go(stamped.s)
  }

  // ----- runs ----------------------------------------------------------------------------------------------------

  // `Outside`: someone else changes what is on the drive, or it is another drive.
  datatype Op = StampOp(guid: string) | LayOutOp(confirmed: bool, tags: Option<seq<string>>, guid: string)
              | Outside(drive: Drive)

  function Perform(s: Sys, op: Op): Sys {
    match op
    case StampOp(guid) => Stamp(s, guid).s
    case LayOutOp(confirmed, tags, guid) => LayOut(s, confirmed, tags, guid).s
    case Outside(drive) => s.(drive := drive)
  }

  /** The states before, between and after a sequence of operations. */
  function Run(s: Sys, ops: seq<Op>): (r: seq<Sys>)
    ensures |r| == |ops| + 1 && r[0] == s
    decreases ops
  { [s] + if ops == [] then [] else Run(Perform(s, ops[0]), ops[1..]) }
}
