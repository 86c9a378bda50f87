/** The first-boot service itself: one run falls through its stages in order, and is proved to do what running stage
    after stage does. */
module FirstBootHost {
  import opened Basics
  import opened Text
  import M = FirstBootModel
  import S = FirstBootSafety

  /** Reads lines until one says CONFIRM. Blank lines and an exhausted terminal never count as consent. */
  method WaitForConfirmation(lines: seq<Option<string>>) returns (confirmed: bool)
    ensures confirmed <==> exists i :: 0 <= i < |lines| && lines[i].Some? && Strip(lines[i].value) == "CONFIRM"
  {
    var i := 0;
    while i < |lines|
      invariant 0 <= i <= |lines|
      invariant forall k :: 0 <= k < i ==> !M.IsConfirm(lines[k])
    {
      if lines[i].Some? {
        if Strip(lines[i].value) == "CONFIRM" {
          assert M.IsConfirm(lines[i]);
          return true;
        }
      }
      i := i + 1;
    }
    assert forall k :: 0 <= k < |lines| ==> !M.IsConfirm(lines[k]);
    confirmed := false;
  }

  class FirstBoot {
    var file: M.File
    var marker: bool
    var trace: seq<M.Act>

    constructor ()
      ensures World() == M.FACTORY
    { file, marker, trace := M.Missing, false, []; }

    function World(): M.World
      reads this
    { M.World(file, marker, trace) }

    /** The stage ended as `s` says: either it hands on `j`, or the run ends with `action`. */
    ghost predicate StageDid(on: bool, j: M.Journal, action: M.Action, s: M.Step)
      reads this
    { World() == s.w && (on <==> s.On?) && (on ==> j == s.j) && (!on ==> action == s.action) }

    method Note(a: M.Act)
      modifies this`trace
      ensures trace == old(trace) + [a]
    { trace := trace + [a]; }

    /** Writes the journal durably, unless the run is cut short just before or just after. */
    method RecordTransition(j: M.Journal, entry: M.Entry, input: M.Inputs)
      returns (on: bool, j': M.Journal, action: M.Action)
      modifies this
      ensures StageDid(on, j', action, M.Record(old(World()), j, entry, input))
    {
      j', action := j, M.Crashed;
      if M.CrashesAt(input, j.state, M.BeforeJournal) { return false, j', action; }
      j' := M.Journal(entry.StateOf(), j.history + [entry]);
      file := M.Stored(j');
      on := !M.CrashesAt(input, j.state, M.AfterJournal);
    }

    method RecordRepaired(j: M.Journal, target: string, evidence: M.Evidence, input: M.Inputs)
      returns (on: bool, j': M.Journal, action: M.Action)
      modifies this
      ensures StageDid(on, j', action, M.RecordRepaired(old(World()), j, target, evidence, input))
    {
      if target == "" || evidence == map[] || exists k :: k in evidence && evidence[k] != M.Yes {
        return false, j, M.EvidenceRejected;
      }
      on, j', action := RecordTransition(j, M.ENetworkRepaired(target, evidence), input);
    }

    method ProposeAndAsk(j: M.Journal, input: M.Inputs) returns (on: bool, j': M.Journal, action: M.Action)
      modifies this
      ensures StageDid(on, j', action, M.StageProposed(old(World()), j, input))
    {
      on, j', action := false, j, M.EntryMissing;
      var e := M.Last(j.history, M.Proposed);
      if e.None? { return; }
      var d := e.value.diagnosis;
      if d.needsRepair && d.mode.None? { return false, j, M.Refused; }
      if M.Last(j.history, M.Detected).None? || M.Last(j.history, M.Discovered).None? { return; }
      ghost var before := trace;
      Note(M.Shown(d));
      var confirmed := WaitForConfirmation(input.lines);
      assert confirmed == M.ConfirmTyped(input.lines);
      if !confirmed { return false, j, M.Declined; }
      Note(M.ConfirmRead);
      assert trace == before + [M.Shown(d), M.ConfirmRead];
      on, j', action := RecordTransition(j, M.EConfirmed, input);
    }

    method RepairNetwork(j: M.Journal, input: M.Inputs) returns (on: bool, j': M.Journal, action: M.Action)
      modifies this
      ensures StageDid(on, j', action, M.StageConfirmed(old(World()), j, input))
    {
      on, j', action := false, j, M.EntryMissing;
      var p, e := M.Last(j.history, M.Proposed), M.Last(j.history, M.Discovered);
      if p.None? || e.None? { return; }
      var d := p.value.diagnosis;
      if d.needsRepair {
        Note(M.NetworkWritten(d));
        if !input.repair.ok {
          on, j', action := RecordTransition(j, M.ENetworkRepairFailed, input);
          if on { on, action := false, M.NetworkFailed; }
          return;
        }
        Note(M.NetworkChecked(d.target, input.repair.evidence));
        on, j', action := RecordRepaired(j, d.target, input.repair.evidence, input);
      } else {
        var evidence := M.FactsEvidence(e.value.facts);
        Note(M.NetworkChecked(input.observed, evidence));
        on, j', action := RecordRepaired(j, input.observed, evidence, input);
      }
    }

    method InstallTools(j: M.Journal, input: M.Inputs) returns (on: bool, j': M.Journal, action: M.Action)
      modifies this
      ensures StageDid(on, j', action, M.StageRepaired(old(World()), j, input))
    {
      Note(M.InstallTried(input.installOk));
      on, j', action := RecordTransition(j, M.EPackagesInstalled(input.installOk), input);
      if on && !input.installOk { on, action := false, M.PackagesFailed; }
    }

    method VerifyTools(j: M.Journal, input: M.Inputs) returns (on: bool, j': M.Journal, action: M.Action)
      modifies this
      ensures StageDid(on, j', action, M.StageInstalled(old(World()), j, input))
    {
      on, j', action := false, j, M.EntryMissing;
      var e := M.Last(j.history, M.PackagesInstalled);
      if e.None? { return; }
      if !e.value.installOk { return false, j, M.PackagesFailed; }
      Note(M.VerifyTried(input.verifyOk));
      on, j', action := RecordTransition(j, M.EPackagesVerified(input.verifyOk), input);
      if on && !input.verifyOk { on, action := false, M.VerifyFailed; }
    }

    method Commit(j: M.Journal, input: M.Inputs) returns (on: bool, j': M.Journal, action: M.Action)
      modifies this
      ensures StageDid(on, j', action, M.StageVerified(old(World()), j, input))
    {
      on, j', action := false, j, M.EntryMissing;
      var e := M.Last(j.history, M.PackagesVerified);
      if e.None? { return; }
      if !e.value.verifyOk { return false, j, M.VerifyFailed; }
      marker := true;
      Note(M.MarkerWritten);
      on, j', action := RecordTransition(j, M.ECommitted, input);
    }

    /** The read-only stages up to the proposal. */
    method Look(j: M.Journal, input: M.Inputs) returns (on: bool, j': M.Journal, action: M.Action)
      requires j.state in {M.New, M.Created, M.Detected, M.Discovered}
      modifies this
      ensures M.CrashesAt(input, j.state, M.BeforeActing) || StageDid(on, j', action, M.Stage(old(World()), j, input))
    {
      on, j', action := false, j, M.EntryMissing;
      match j.state {
        case New =>
          on, j', action := RecordTransition(j, M.ECreated, input);
        case Created =>
          on, j', action := RecordTransition(j, M.EDetected(input.installed), input);
        case Detected =>
          on, j', action := RecordTransition(j, M.EDiscovered(input.facts, M.Lifeline(input.facts)), input);
        case Discovered =>
          var e := M.Last(j.history, M.Discovered);
          if e.None? { return; }
          var d := if e.value.lifelineOk then M.Diagnosis(false, None, "")
                   else M.Diagnosis(true, input.mode, input.target);
          on, j', action := RecordTransition(j, M.EProposed(d), input);
      }
    }

    /** The stage a state selects, unless the run is cut short before it acts. */
    method Stage(j: M.Journal, input: M.Inputs) returns (on: bool, j': M.Journal, action: M.Action)
      modifies this
      ensures StageDid(on, j', action, M.Stage(old(World()), j, input))
    {
      if M.CrashesAt(input, j.state, M.BeforeActing) { return false, j, M.Crashed; }
      match j.state {
        case New => on, j', action := Look(j, input);
        case Created => on, j', action := Look(j, input);
        case Detected => on, j', action := Look(j, input);
        case Discovered => on, j', action := Look(j, input);
        case Proposed => on, j', action := ProposeAndAsk(j, input);
        case Confirmed => on, j', action := RepairNetwork(j, input);
        case NetworkRepaired => on, j', action := InstallTools(j, input);
        case NetworkRepairFailed =>
          var e := M.Last(j.history, M.NetworkRepairFailed);
          on, j', action := false, j, if e.None? then M.EntryMissing else M.NetworkFailed;
        case PackagesInstalled => on, j', action := VerifyTools(j, input);
        case PackagesVerified => on, j', action := Commit(j, input);
        case Committed => on, j', action := false, j, M.Done;
      }
    }

    /** The run that was headed for `goal` either goes on towards it with journal `j`, or has ended there. */
    ghost predicate Heading(on: bool, j: M.Journal, action: M.Action, input: M.Inputs, goal: M.Step)
      reads this
    { if on then goal == M.RunFrom(World(), j, input) else goal == M.End(World(), action) }

    /** `if journal["state"] == stage`: runs that stage, or falls through. */
    method Through(stage: M.State, j: M.Journal, input: M.Inputs, ghost goal: M.Step)
      returns (on: bool, j': M.Journal, action: M.Action)
      requires Heading(true, j, M.Done, input, goal)
      modifies this
      ensures Heading(on, j', action, input, goal)
      ensures on && j.state != stage ==> j' == j
      ensures on && j.state == stage ==> M.Ahead(j'.state) < M.Ahead(stage) && j'.state != M.NetworkRepairFailed
    {
      on, j', action := true, j, M.Done;
      if j.state == stage { on, j', action := Stage(j, input); }
    }

    /** The stages up to the operator's answer. */
    method RunToConsent(j: M.Journal, input: M.Inputs, ghost goal: M.Step)
      returns (on: bool, j': M.Journal, action: M.Action)
      requires Heading(true, j, M.Done, input, goal)
      modifies this
      ensures Heading(on, j', action, input, goal)
      ensures on ==> M.Ahead(j'.state) < M.Ahead(M.Proposed)
    {
      on, j', action := Through(M.New, j, input, goal);
      if !on { return; }
      on, j', action := Through(M.Created, j', input, goal);
      if !on { return; }
      on, j', action := Through(M.Detected, j', input, goal);
      if !on { return; }
      on, j', action := Through(M.Discovered, j', input, goal);
      if !on { return; }
      on, j', action := Through(M.Proposed, j', input, goal);
    }

    /** The network stages, including a failure on record. */
    method RunRepair(j: M.Journal, input: M.Inputs, ghost goal: M.Step)
      returns (on: bool, j': M.Journal, action: M.Action)
      requires Heading(true, j, M.Done, input, goal) && M.Ahead(j.state) < M.Ahead(M.Proposed)
      modifies this
      ensures Heading(on, j', action, input, goal)
      ensures on ==> M.Ahead(j'.state) < M.Ahead(M.Confirmed) && j'.state != M.NetworkRepairFailed
    {
      on, j', action := Through(M.Confirmed, j, input, goal);
      if !on { return; }
      on, j', action := Through(M.NetworkRepairFailed, j', input, goal);
    }

    /** The stages after a repaired network. */
    method RunToEnd(j: M.Journal, input: M.Inputs, ghost goal: M.Step) returns (action: M.Action)
      requires Heading(true, j, M.Done, input, goal)
      requires M.Ahead(j.state) < M.Ahead(M.Confirmed) && j.state != M.NetworkRepairFailed
      modifies this
      ensures Heading(false, j, action, input, goal)
    {
      var on, j';
      on, j', action := Through(M.NetworkRepaired, j, input, goal);
      if !on { return; }
      on, j', action := Through(M.PackagesInstalled, j', input, goal);
      if !on { return; }
      on, j', action := Through(M.PackagesVerified, j', input, goal);
      if !on { return; }
      on, j', action := Through(M.Committed, j', input, goal);
    }

    /** One run: it falls through the stages in order, from the one the journal's state asks for. */
    method Run(input: M.Inputs) returns (action: M.Action)
      modifies this
      ensures World() == M.Run(old(World()), input).w && action == M.Run(old(World()), input).action
    {
      if marker { return M.AlreadyCompleted; }
      var j := M.Load(file);
      ghost var goal := M.RunFrom(World(), j, input);
      var on;
      on, j, action := RunToConsent(j, input, goal);
      if !on { return; }
      on, j, action := RunRepair(j, input, goal);
      if !on { return; }
      action := RunToEnd(j, input, goal);
    }

    /** Any sequence of boots and journal losses on a machine fresh from the factory. */
    method Boots(bs: seq<M.Boot>)
      requires World() == M.FACTORY
      modifies this
      ensures World() == M.Boots(M.FACTORY, bs) && S.Inv(World())
    {
      var i := 0;
      while i < |bs|
        invariant 0 <= i <= |bs|
        invariant M.Boots(M.FACTORY, bs) == M.Boots(World(), bs[i..])
      {
        match bs[i] {
          case Boot(input) => var _ := Run(input);
          case LoseJournal => Note(M.JournalLost); file := M.Missing;
          case CorruptJournal => Note(M.JournalLost); file := M.Unreadable;
        }
        assert bs[i..][1..] == bs[i + 1..];
        i := i + 1;
      }
      S.BootsKeep(M.FACTORY, bs);
    }
  }
}
