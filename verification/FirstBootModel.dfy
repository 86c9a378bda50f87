/** First boot: the durable journal and completion marker, and one run of the state machine over them. */
module FirstBootModel {
  import opened Basics
  import opened Text

  // ----- evidence ------------------------------------------------------------------------------------------------

  // One fact of the lifeline check; `ok` may be missing.
  datatype Fact = Fact(name: string, ok: Option<bool>)
  // A recorded check value is exactly true, exactly false, or anything else.
  datatype Check = Yes | No | Malformed
  type Evidence = map<string, Check>

  /** The value of the last fact of that name; true when there is none or it carries no value. */
  function FactHolds(facts: seq<Fact>, name: string): bool {
    if facts == [] then true
    else
      var last := facts[|facts| - 1];
      if last.name == name then (last.ok.Some? ==> last.ok.value) else FactHolds(facts[..|facts| - 1], name)
  }

  function ToCheck(b: bool): Check { if b then Yes else No }

  function FactsEvidence(facts: seq<Fact>): Evidence {
    map["address" := ToCheck(FactHolds(facts, "address_assigned")),
        "gateway" := ToCheck(FactHolds(facts, "gateway_reachable"))]
  }

  /** What `network_repaired` must carry besides success: a target, and checks that are all exactly true. */
  predicate Genuine(target: string, evidence: Evidence) {
    target != "" && evidence != map[] && forall k :: k in evidence ==> evidence[k] == Yes
  }

  // ----- journal -------------------------------------------------------------------------------------------------

  datatype Mode = Replace | Additive
  datatype Diagnosis = Diagnosis(needsRepair: bool, mode: Option<Mode>, target: string)

  datatype State = New | Created | Detected | Discovered | Proposed | Confirmed | NetworkRepaired
                 | NetworkRepairFailed | PackagesInstalled | PackagesVerified | Committed

  datatype Entry =
    | ECreated
    | EDetected(installed: bool)
    | EDiscovered(facts: seq<Fact>, lifelineOk: bool)
    | EProposed(diagnosis: Diagnosis)
    | EConfirmed
    | ENetworkRepaired(target: string, evidence: Evidence)
    | ENetworkRepairFailed
    | EPackagesInstalled(installOk: bool)
    | EPackagesVerified(verifyOk: bool)
    | ECommitted
  {
    function StateOf(): State {
      match this
      case ECreated => Created
      case EDetected(_) => Detected
      case EDiscovered(_, _) => Discovered
      case EProposed(_) => Proposed
      case EConfirmed => Confirmed
      case ENetworkRepaired(_, _) => NetworkRepaired
      case ENetworkRepairFailed => NetworkRepairFailed
      case EPackagesInstalled(_) => PackagesInstalled
      case EPackagesVerified(_) => PackagesVerified
      case ECommitted => Committed
    }
  }

  datatype Journal = Journal(state: State, history: seq<Entry>)
  datatype File = Missing | Unreadable | Stored(journal: Journal)

  // What a run did, in order. `JournalLost` is the environment's doing.
  datatype Act =
    | Shown(shown: Diagnosis)
    | ConfirmRead
    | NetworkWritten(applied: Diagnosis)
    | NetworkChecked(target: string, evidence: Evidence)
    | InstallTried(installOk: bool)
    | VerifyTried(verifyOk: bool)
    | MarkerWritten
    | JournalLost

  datatype World = World(file: File, marker: bool, trace: seq<Act>)

  function Load(file: File): Journal { if file.Stored? then file.journal else Journal(New, []) }

  /** The most recent entry of a state, as the resumed stages look it up. */
  function Last(history: seq<Entry>, state: State): (e: Option<Entry>)
    ensures e.Some? ==> e.value.StateOf() == state
  {
    if history == [] then None
    else if history[|history| - 1].StateOf() == state then Some(history[|history| - 1])
    else Last(history[..|history| - 1], state)
  }

  // ----- one run -------------------------------------------------------------------------------------------------

  datatype Repair = Repair(ok: bool, evidence: Evidence)
  // A crash before a stage does anything, after it acted but before it is journalled, or after it is journalled.
  datatype Point = BeforeActing | BeforeJournal | AfterJournal
  datatype Crash = Crash(stage: State, point: Point)

  // Everything a run learns from outside, and the one place where it may be cut short.
  datatype Inputs = Inputs(installed: bool, facts: seq<Fact>, mode: Option<Mode>, target: string,
                           lines: seq<Option<string>>, repair: Repair, observed: string,
                           installOk: bool, verifyOk: bool, crash: Option<Crash>)

  datatype Action = AlreadyCompleted | Refused | Declined | NetworkFailed | PackagesFailed | VerifyFailed | Done
                  | Crashed | EvidenceRejected | EntryMissing

  /** A stage either hands the journal on or ends the run. */
  datatype Step = On(w: World, j: Journal) | End(w: World, action: Action)

  /** A line that reads CONFIRM once surrounding whitespace is removed. */
  predicate IsConfirm(line: Option<string>) { line.Some? && Strip(line.value) == "CONFIRM" }

  predicate ConfirmTyped(lines: seq<Option<string>>) { exists i :: 0 <= i < |lines| && IsConfirm(lines[i]) }

  predicate CrashesAt(input: Inputs, stage: State, point: Point) { input.crash == Some(Crash(stage, point)) }

  function Acted(w: World, acts: seq<Act>): World { w.(trace := w.trace + acts) }

  /** Journals `entry` after the stage acted, unless the run is cut short. */
  function Record(w: World, j: Journal, entry: Entry, input: Inputs): Step {
    var j' := Journal(entry.StateOf(), j.history + [entry]);
    if CrashesAt(input, j.state, BeforeJournal) then End(w, Crashed)
    else if CrashesAt(input, j.state, AfterJournal) then End(w.(file := Stored(j')), Crashed)
    else On(w.(file := Stored(j')), j')
  }

  /** `network_repaired` is only ever journalled with genuine evidence. */
  function RecordRepaired(w: World, j: Journal, target: string, evidence: Evidence, input: Inputs): Step {
    if Genuine(target, evidence) then Record(w, j, ENetworkRepaired(target, evidence), input)
    else End(w, EvidenceRejected)
  }

  function Lifeline(facts: seq<Fact>): bool {
    FactHolds(facts, "address_assigned") && FactHolds(facts, "gateway_reachable")
  }

  function StageDiscovered(w: World, j: Journal, input: Inputs): Step {
    var e := Last(j.history, Discovered);
    if e.None? then End(w, EntryMissing)
    else if e.value.lifelineOk then Record(w, j, EProposed(Diagnosis(false, None, "")), input)
    else Record(w, j, EProposed(Diagnosis(true, input.mode, input.target)), input)
  }

  function StageProposed(w: World, j: Journal, input: Inputs): Step {
    var e := Last(j.history, Proposed);
    if e.None? then End(w, EntryMissing)
    else
      var d := e.value.diagnosis;
      if d.needsRepair && d.mode.None? then End(w, Refused)
      else if Last(j.history, Detected).None? || Last(j.history, Discovered).None? then End(w, EntryMissing)
      else if !ConfirmTyped(input.lines) then End(Acted(w, [Shown(d)]), Declined)
      else Record(Acted(w, [Shown(d), ConfirmRead]), j, EConfirmed, input)
  }

  function StageConfirmed(w: World, j: Journal, input: Inputs): Step {
    var p, e := Last(j.history, Proposed), Last(j.history, Discovered);
    if p.None? || e.None? then End(w, EntryMissing)
    else
      var d := p.value.diagnosis;
      if d.needsRepair then
        var w' := Acted(w, [NetworkWritten(d)]);
        if input.repair.ok then
          RecordRepaired(Acted(w', [NetworkChecked(d.target, input.repair.evidence)]), j, d.target,
                         input.repair.evidence, input)
        else
          var s := Record(w', j, ENetworkRepairFailed, input);
          if s.On? then End(s.w, NetworkFailed) else s
      else
        var evidence := FactsEvidence(e.value.facts);
        RecordRepaired(Acted(w, [NetworkChecked(input.observed, evidence)]), j, input.observed, evidence, input)
  }

  function StageRepaired(w: World, j: Journal, input: Inputs): Step {
    var s := Record(Acted(w, [InstallTried(input.installOk)]), j, EPackagesInstalled(input.installOk), input);
    if s.On? && !input.installOk then End(s.w, PackagesFailed) else s
  }

  function StageInstalled(w: World, j: Journal, input: Inputs): Step {
    var e := Last(j.history, PackagesInstalled);
    if e.None? then End(w, EntryMissing)
    else if !e.value.installOk then End(w, PackagesFailed)
    else
      var s := Record(Acted(w, [VerifyTried(input.verifyOk)]), j, EPackagesVerified(input.verifyOk), input);
      if s.On? && !input.verifyOk then End(s.w, VerifyFailed) else s
  }

  function StageVerified(w: World, j: Journal, input: Inputs): Step {
    var e := Last(j.history, PackagesVerified);
    if e.None? then End(w, EntryMissing)
    else if !e.value.verifyOk then End(w, VerifyFailed)
    else Record(Acted(w, [MarkerWritten]).(marker := true), j, ECommitted, input)
  }

  /** How many stages are still ahead of a state. */
  function Ahead(state: State): nat {
    match state
    case New => 9
    case Created => 8
    case Detected => 7
    case Discovered => 6
    case Proposed => 5
    case Confirmed => 4
    case NetworkRepaired => 3
    case NetworkRepairFailed => 0
    case PackagesInstalled => 2
    case PackagesVerified => 1
    case Committed => 0
  }

  /** The stage that the journal's state selects. */
  function Stage(w: World, j: Journal, input: Inputs): (s: Step)
    ensures s.On? ==> Ahead(s.j.state) < Ahead(j.state) && s.j.state != NetworkRepairFailed
  {
    if CrashesAt(input, j.state, BeforeActing) then End(w, Crashed)
    else match j.state
      case New => Record(w, j, ECreated, input)
      case Created => Record(w, j, EDetected(input.installed), input)
      case Detected => Record(w, j, EDiscovered(input.facts, Lifeline(input.facts)), input)
      case Discovered => StageDiscovered(w, j, input)
      case Proposed => StageProposed(w, j, input)
      case Confirmed => StageConfirmed(w, j, input)
      case NetworkRepaired => StageRepaired(w, j, input)
      case NetworkRepairFailed =>
        End(w, if Last(j.history, NetworkRepairFailed).None? then EntryMissing else NetworkFailed)
      case PackagesInstalled => StageInstalled(w, j, input)
      case PackagesVerified => StageVerified(w, j, input)
      case Committed => End(w, Done)
  }

  /** Stage after stage until one ends the run. */
  function RunFrom(w: World, j: Journal, input: Inputs): Step
    ensures RunFrom(w, j, input).End?
    decreases Ahead(j.state)
  {
    var s := Stage(w, j, input);
    if s.End? then s else RunFrom(s.w, s.j, input)
  }

  function Run(w: World, input: Inputs): Step
    ensures Run(w, input).End?
  {
    if w.marker then End(w, AlreadyCompleted) else RunFrom(w, Load(w.file), input)
  }

  // ----- many runs -----------------------------------------------------------------------------------------------

  datatype Boot = Boot(input: Inputs) | LoseJournal | CorruptJournal

  function After(w: World, b: Boot): World {
    match b
    case Boot(input) => Run(w, input).w
    case LoseJournal => Acted(w, [JournalLost]).(file := Missing)
    case CorruptJournal => Acted(w, [JournalLost]).(file := Unreadable)
  }

  function Boots(w: World, bs: seq<Boot>): World
    decreases |bs|
  {
    if bs == [] then w else Boots(After(w, bs[0]), bs[1..])
  }

  const FACTORY := World(Missing, false, [])
}
