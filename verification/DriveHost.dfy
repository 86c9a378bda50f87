/** The drive administrator itself: each method drives the tools and the registry step by step, and is proved to end as
    the protocol function of the same name says. */
module DriveHost {
  import opened Basics
  import opened Text
  import G = DriveGuard
  import P = DriveProtocol
  import S = DriveSafety

  datatype Outcome = Ok | Refused | Gone

  class DriveAdmin {
    var drive: G.Drive
    var registry: set<string>
    var tape: seq<P.Event>
    // The tools started so far, for the theorems only.
    var ran: seq<P.Tool>

    constructor (drive: G.Drive, registry: set<string>, tape: seq<P.Event>)
      ensures Here() == P.Sys(drive, registry, tape)
    {
      this.drive, this.registry, this.tape, ran := drive, registry, tape, [];
    }

    function Here(): P.Sys
      reads this
    { P.Sys(drive, registry, tape, ran) }

    ghost predicate EndedAs(outcome: Outcome, f: P.Flow)
      reads this
    { Here() == f.s && (outcome.Ok? <==> f.Go?) && (outcome.Gone? <==> f.Dead?) }

    // ----- single calls ------------------------------------------------------------------------------------------

    method NextCall() returns (e: P.Event)
      modifies this
      ensures e == P.NextEvent(old(Here())) && Here() == P.Later(old(Here()))
    {
      e := P.NextEvent(Here());
      if tape != [] { tape := tape[1..]; }
    }

    method Validate() returns (outcome: Outcome)
      modifies this
      ensures EndedAs(outcome, P.Check(old(Here())))
    {
      var e := NextCall();
      outcome := match e.fault case Fine | Ignored => Ok case Failed(_) => Refused case Killed(_) => Gone;
    }

    method ReadState() returns (outcome: Outcome, state: G.DriveState)
      modifies this
      ensures EndedAs(outcome, P.Looked(old(Here()))) && !outcome.Refused?
      ensures state == P.Look(old(Here()))
    {
      var e := NextCall();
      state := if e.fault.Fine? then G.Seen(drive) else G.UNKNOWN;
      outcome := if e.fault.Killed? then Gone else Ok;
    }

    method RunTool(tool: P.Tool) returns (outcome: Outcome)
      modifies this
      ensures EndedAs(outcome, P.RunTool(old(Here()), tool))
    {
      var e := NextCall();
      drive, ran := P.Affected(tool, drive, e), ran + [tool];
      outcome := match e.fault case Fine | Ignored => Ok case Failed(_) => Refused case Killed(_) => Gone;
    }

    method RegisterInstallerUuid(guid: string) returns (outcome: Outcome)
      modifies this
      ensures EndedAs(outcome, P.Register(old(Here()), guid))
    {
      var e := NextCall();
      if e.fault.Fine? || e.fault.Ignored? || e.fault.effect.Everything? { registry := registry + {guid}; }
      outcome := match e.fault case Fine | Ignored => Ok case Failed(_) => Refused case Killed(_) => Gone;
    }

    // ----- operations --------------------------------------------------------------------------------------------

    method StampInstallerIdentity(guid: string) returns (outcome: Outcome)
      modifies this
      ensures EndedAs(outcome, P.Stamp(old(Here()), guid))
      ensures S.SameContents(old(drive), drive)
    {
      S.StampSafe(Here(), guid);
      var state;
      outcome, state := ReadState();
      if outcome.Gone? { return; }
      if !state.known { return Refused; }
      if state.guid.Some? && G.IsInstallerGuid(registry, state.guid.value) { return Ok; }
      if state.hasData && !G.IsBaselineOnly(state) { return Refused; }
      outcome := Adopt(guid);
    }

    method Adopt(guid: string) returns (outcome: Outcome)
      modifies this
      ensures EndedAs(outcome, P.Adopt(old(Here()), guid))
    {
      outcome := RunTool(P.SetGuid(guid));
      if !outcome.Ok? { return; }
      var found;
      outcome, found := ReadState();
      if outcome.Gone? { return; }
      if !found.known || found.guid.None? || Lower(found.guid.value) != guid { return Refused; }
      outcome := RegisterInstallerUuid(guid);
    }

    method RunSteps(steps: seq<P.Tool>) returns (outcome: Outcome)
      modifies this
      ensures EndedAs(outcome, P.RunSteps(old(Here()), steps))
    {
      var k := 0;
      outcome := Ok;
      while k < |steps|
        invariant 0 <= k <= |steps| && outcome.Ok?
        invariant P.RunSteps(old(Here()), steps) == P.RunSteps(Here(), steps[k..])
      {
        assert steps[k..][1..] == steps[k + 1..];
        outcome := Validate();
        if !outcome.Ok? { return; }
        outcome := RunTool(steps[k]);
        if !outcome.Ok? { return; }
        k := k + 1;
      }
    }

    method Apply(tags: Option<seq<string>>) returns (outcome: Outcome)
      modifies this
      ensures EndedAs(outcome, P.Apply(old(Here()), tags))
    {
      outcome := Validate();
      if !outcome.Ok? { return; }
      var state;
      outcome, state := ReadState();
      if outcome.Gone? { return; }
      if !G.IsBaselineOnly(state) { return Refused; }
      outcome, state := ReadState();
      if outcome.Gone? { return; }
      if !G.MayFormat(state, registry) || tags.None? { return Refused; }
      outcome := RunSteps(P.Steps(tags.value));
    }

    method LayOutBaselineDrive(confirmed: bool, tags: Option<seq<string>>, guid: string) returns (outcome: Outcome)
      modifies this
      ensures EndedAs(outcome, P.LayOut(old(Here()), confirmed, tags, guid))
      ensures drive != old(drive) || ran != old(ran) ==> confirmed && S.MayErase(old(Here()))
    {
      S.LayOutSafe(Here(), confirmed, tags, guid);
      if !confirmed { return Refused; }
      outcome := Validate();
      if !outcome.Ok? { return; }
      outcome := Apply(tags);
      if !outcome.Ok? { return; }
      outcome := Validate();
      if !outcome.Ok? { return; }
      outcome := StampInstallerIdentity(guid);
      if outcome.Refused? { outcome := Ok; }
    }

    method PerformOp(op: P.Op)
      modifies this
      ensures Here() == P.Perform(old(Here()), op)
    {
      match op {
        case StampOp(guid) => var _ := StampInstallerIdentity(guid);
        case LayOutOp(confirmed, tags, guid) => var _ := LayOutBaselineDrive(confirmed, tags, guid);
        case Outside(d) => drive := d;
      }
    }

    /** A whole run of operations; between them somebody else may change the drive. */
    method RunAll(ops: seq<P.Op>)
      modifies this
      ensures Here() == P.Run(old(Here()), ops)[|ops|]
    {
      var k := 0;
      while k < |ops|
        invariant 0 <= k <= |ops|
        invariant Here() == P.Run(old(Here()), ops)[k]
      {
        S.Stepwise(old(Here()), ops, k);
        PerformOp(ops[k]);
        k := k + 1;
      }
    }
  }
}
