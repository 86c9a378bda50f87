/** What every sequence of first-boot runs keeps, whatever crashes and however often the journal is lost. */
module FirstBootSafety {
  import opened Basics
  import opened FirstBootModel

  // ----- the order of a trace ------------------------------------------------------------------------------------

  // Since the journal was last lost: the diagnosis on screen, the one confirmed, and how far the required order
  // CONFIRM, genuine network evidence, successful install, successful verification has come. Over the whole trace:
  // whether every act was allowed when it happened, and whether the marker was written.
  datatype Gate = Gate(shown: Option<Diagnosis>, confirmed: Option<Diagnosis>, level: nat, sound: bool, marked: bool)

  /** Network writes apply the diagnosis that was shown and confirmed, installs come after genuine evidence, and the
      marker after everything, each since the journal was last lost. */
  predicate Allowed(g: Gate, a: Act) {
    match a
    case NetworkWritten(d) => g.confirmed == Some(d)
    case InstallTried(_) => g.level >= 2
    case VerifyTried(_) => g.level >= 3
    case MarkerWritten => g.level >= 4
    case _ => true
  }

  function Move(g: Gate, a: Act): Gate {
    match a
    case Shown(d) => g.(shown := Some(d))
    case ConfirmRead => g.(confirmed := g.shown, level := Max(g.level, 1))
    case NetworkWritten(_) => g
    case NetworkChecked(t, e) => if g.level >= 1 && Genuine(t, e) then g.(level := Max(g.level, 2)) else g
    case InstallTried(ok) => if g.level >= 2 && ok then g.(level := Max(g.level, 3)) else g
    case VerifyTried(ok) => if g.level >= 3 && ok then g.(level := 4) else g
    case MarkerWritten => g.(marked := true)
    case JournalLost => g.(shown := None, confirmed := None, level := 0)
  }

  function Advance(g: Gate, a: Act): Gate { Move(g, a).(sound := g.sound && Allowed(g, a)) }

  const START := Gate(None, None, 0, true, false)

  function GateAfter(trace: seq<Act>): (g: Gate)
    ensures g.level <= 4
  {
    if trace == [] then START else Advance(GateAfter(trace[..|trace| - 1]), trace[|trace| - 1])
  }

  lemma GateSnoc(trace: seq<Act>, a: Act)
    ensures GateAfter(trace + [a]) == Advance(GateAfter(trace), a)
  {
    assert (trace + [a])[..|trace|] == trace;
  }

  // ----- the shape of a journal ----------------------------------------------------------------------------------

  /** The history is a prefix of the success path, or stops at `network_repair_failed` right after `confirmed`. */
  predicate OnPath(h: seq<Entry>) {
    && |h| <= 9
    && (|h| > 0 ==> h[0].ECreated?)
    && (|h| > 1 ==> h[1].EDetected?)
    && (|h| > 2 ==> h[2].EDiscovered?)
    && (|h| > 3 ==> h[3].EProposed?)
    && (|h| > 4 ==> h[4].EConfirmed?)
    && (|h| > 5 ==> h[5].ENetworkRepaired? || (h[5].ENetworkRepairFailed? && |h| == 6))
    && (|h| > 6 ==> h[6].EPackagesInstalled?)
    && (|h| > 7 ==> h[7].EPackagesVerified?)
    && (|h| > 8 ==> h[8].ECommitted?)
  }

  /** What the entries of a history on the path say about each other. */
  predicate Coherent(h: seq<Entry>)
    requires OnPath(h)
  {
    && (|h| > 2 ==> h[2].lifelineOk == Lifeline(h[2].facts))
    && (|h| > 3 ==> h[3].diagnosis.needsRepair == !h[2].lifelineOk)
    && (|h| > 4 ==> h[3].diagnosis.needsRepair ==> h[3].diagnosis.mode.Some?)
    && (|h| > 5 && h[5].ENetworkRepaired? ==> Genuine(h[5].target, h[5].evidence))
    && (|h| > 7 ==> h[6].installOk)
    && (|h| > 8 ==> h[7].verifyOk)
  }

  predicate Shape(j: Journal) {
    && OnPath(j.history) && Coherent(j.history)
    && j.state == (if j.history == [] then New else j.history[|j.history| - 1].StateOf())
  }

  /** Every entry can be looked up by its state. */
  lemma {:induction false} LastFinds(h: seq<Entry>, i: nat)
    requires OnPath(h) && i < |h|
    ensures Last(h, h[i].StateOf()) == Some(h[i])
    decreases |h|
  {
    if i < |h| - 1 {
      LastFinds(h[..|h| - 1], i);
    }
  }

  /** How far the trace has come since the journal was last lost, as far as the journal claims. */
  predicate Backed(h: seq<Entry>, g: Gate)
    requires OnPath(h)
  {
    && (|h| > 4 ==> g.confirmed == Some(h[3].diagnosis) && g.level >= 1)
    && (|h| > 5 && h[5].ENetworkRepaired? ==> g.level >= 2)
    && (|h| > 6 && h[6].installOk ==> g.level >= 3)
    && (|h| > 7 && h[7].verifyOk ==> g.level >= 4)
  }

  predicate InvAt(w: World, g: Gate) {
    && g.sound
    && (w.marker <==> g.marked)
    && (w.file.Stored? ==>
          && Shape(w.file.journal)
          && Backed(w.file.journal.history, g)
          && (w.file.journal.state == Committed ==> w.marker))
  }

  predicate Inv(w: World) { InvAt(w, GateAfter(w.trace)) }

  // ----- one stage -----------------------------------------------------------------------------------------------

  /** The gate after a few more acts. */
  function Fold(g: Gate, acts: seq<Act>): Gate
    decreases |acts|
  {
    if acts == [] then g else Fold(Advance(g, acts[0]), acts[1..])
  }

  lemma FoldOne(g: Gate, a: Act)
    ensures Fold(g, [a]) == Advance(g, a)
  {
    assert [a][1..] == [];
  }

  lemma FoldTwo(g: Gate, a: Act, b: Act)
    ensures Fold(g, [a, b]) == Advance(Advance(g, a), b)
  {
    assert [a, b][1..] == [b];
    FoldOne(Advance(g, a), b);
  }

  lemma {:induction false} GateFold(trace: seq<Act>, acts: seq<Act>)
    ensures GateAfter(trace + acts) == Fold(GateAfter(trace), acts)
    decreases |acts|
  {
    if acts == [] {
      assert trace + acts == trace;
    } else {
      GateSnoc(trace, acts[0]);
      GateFold(trace + [acts[0]], acts[1..]);
      assert trace + acts == trace + [acts[0]] + acts[1..];
    }
  }

  /** What a stage leaves behind: the invariant, and a hand-over that matches what is on disk. */
  predicate KeptAt(s: Step, g: Gate) {
    && InvAt(s.w, g)
    && (s.On? ==> s.j == Load(s.w.file))
    && (s.End? ==> s.action != EntryMissing)
  }

  /** A stage that started in `w` did `acts` and kept the invariant. */
  predicate Did(w: World, g: Gate, s: Step, acts: seq<Act>) {
    s.w.trace == w.trace + acts && KeptAt(s, Fold(g, acts))
  }

  predicate Extends(j: Journal, entry: Entry) {
    OnPath(j.history + [entry]) && Coherent(j.history + [entry])
  }

  lemma RecordKeeps(w: World, j: Journal, entry: Entry, input: Inputs, g: Gate)
    requires InvAt(w, g) && j == Load(w.file) && Extends(j, entry)
    requires Backed(j.history + [entry], g)
    requires entry.ECommitted? ==> w.marker
    ensures KeptAt(Record(w, j, entry, input), g)
    ensures Record(w, j, entry, input).w.trace == w.trace
  {
  }

  lemma StageLooks(w: World, j: Journal, input: Inputs, g: Gate)
    requires InvAt(w, g) && j == Load(w.file) && j.state in {New, Created, Detected}
    requires !CrashesAt(input, j.state, BeforeActing)
    ensures Did(w, g, Stage(w, j, input), [])
  {
    match j.state
    case New => RecordKeeps(w, j, ECreated, input, g);
    case Created => RecordKeeps(w, j, EDetected(input.installed), input, g);
    case Detected => RecordKeeps(w, j, EDiscovered(input.facts, Lifeline(input.facts)), input, g);
  }

  lemma StageDiscoveredKeeps(w: World, j: Journal, input: Inputs, g: Gate)
    requires InvAt(w, g) && j == Load(w.file) && j.state == Discovered
    ensures Did(w, g, StageDiscovered(w, j, input), [])
  {
    LastFinds(j.history, 2);
    var d := if j.history[2].lifelineOk then Diagnosis(false, None, "") else Diagnosis(true, input.mode, input.target);
    RecordKeeps(w, j, EProposed(d), input, g);
  }

  lemma StageProposedKeeps(w: World, j: Journal, input: Inputs, g: Gate) returns (acts: seq<Act>)
    requires InvAt(w, g) && j == Load(w.file) && j.state == Proposed
    ensures Did(w, g, StageProposed(w, j, input), acts)
  {
    var h := j.history;
    LastFinds(h, 1);
    LastFinds(h, 2);
    LastFinds(h, 3);
    var d := h[3].diagnosis;
    acts := [];
    if d.needsRepair && d.mode.None? { return; }
    acts := [Shown(d)];
    FoldOne(g, Shown(d));
    if !ConfirmTyped(input.lines) { return; }
    acts := [Shown(d), ConfirmRead];
    FoldTwo(g, Shown(d), ConfirmRead);
    RecordKeeps(Acted(w, acts), j, EConfirmed, input, Fold(g, acts));
  }

  lemma RecordRepairedKeeps(w: World, j: Journal, target: string, evidence: Evidence, input: Inputs, g: Gate)
    requires InvAt(w, g) && j == Load(w.file) && j.state == Confirmed
    requires Genuine(target, evidence) ==> g.level >= 2
    ensures KeptAt(RecordRepaired(w, j, target, evidence, input), g)
    ensures RecordRepaired(w, j, target, evidence, input).w.trace == w.trace
  {
    if Genuine(target, evidence) { RecordKeeps(w, j, ENetworkRepaired(target, evidence), input, g); }
  }

  lemma RepairKeeps(w: World, j: Journal, d: Diagnosis, input: Inputs, g: Gate)
    requires InvAt(w, g) && j == Load(w.file) && j.state == Confirmed && d == j.history[3].diagnosis
    requires input.repair.ok
    ensures var acts := [NetworkWritten(d), NetworkChecked(d.target, input.repair.evidence)];
            Did(w, g, RecordRepaired(Acted(w, acts), j, d.target, input.repair.evidence, input), acts)
  {
    var acts := [NetworkWritten(d), NetworkChecked(d.target, input.repair.evidence)];
    FoldTwo(g, acts[0], acts[1]);
    RecordRepairedKeeps(Acted(w, acts), j, d.target, input.repair.evidence, input, Fold(g, acts));
  }

  lemma HealthyKeeps(w: World, j: Journal, evidence: Evidence, input: Inputs, g: Gate)
    requires InvAt(w, g) && j == Load(w.file) && j.state == Confirmed
    ensures var acts := [NetworkChecked(input.observed, evidence)];
            Did(w, g, RecordRepaired(Acted(w, acts), j, input.observed, evidence, input), acts)
  {
    var acts := [NetworkChecked(input.observed, evidence)];
    FoldOne(g, acts[0]);
    RecordRepairedKeeps(Acted(w, acts), j, input.observed, evidence, input, Fold(g, acts));
  }

  lemma StageConfirmedKeeps(w: World, j: Journal, input: Inputs, g: Gate) returns (acts: seq<Act>)
    requires InvAt(w, g) && j == Load(w.file) && j.state == Confirmed
    ensures Did(w, g, StageConfirmed(w, j, input), acts)
  {
    var h := j.history;
    LastFinds(h, 2);
    LastFinds(h, 3);
    var d := h[3].diagnosis;
    if !d.needsRepair {
      acts := [NetworkChecked(input.observed, FactsEvidence(h[2].facts))];
      HealthyKeeps(w, j, FactsEvidence(h[2].facts), input, g);
    } else if input.repair.ok {
      acts := [NetworkWritten(d), NetworkChecked(d.target, input.repair.evidence)];
      RepairKeeps(w, j, d, input, g);
      assert Acted(w, acts) == Acted(Acted(w, [acts[0]]), [acts[1]]);
    } else {
      acts := [NetworkWritten(d)];
      FoldOne(g, acts[0]);
      RecordKeeps(Acted(w, acts), j, ENetworkRepairFailed, input, Fold(g, acts));
    }
  }

  lemma StageRepairedKeeps(w: World, j: Journal, input: Inputs, g: Gate)
    requires InvAt(w, g) && j == Load(w.file) && j.state == NetworkRepaired
    ensures Did(w, g, StageRepaired(w, j, input), [InstallTried(input.installOk)])
  {
    var acts := [InstallTried(input.installOk)];
    FoldOne(g, acts[0]);
    RecordKeeps(Acted(w, acts), j, EPackagesInstalled(input.installOk), input, Fold(g, acts));
  }

  lemma StageInstalledKeeps(w: World, j: Journal, input: Inputs, g: Gate) returns (acts: seq<Act>)
    requires InvAt(w, g) && j == Load(w.file) && j.state == PackagesInstalled
    ensures Did(w, g, StageInstalled(w, j, input), acts)
  {
    LastFinds(j.history, 6);
    acts := [];
    if !j.history[6].installOk { return; }
    acts := [VerifyTried(input.verifyOk)];
    FoldOne(g, acts[0]);
    RecordKeeps(Acted(w, acts), j, EPackagesVerified(input.verifyOk), input, Fold(g, acts));
  }

  lemma StageVerifiedKeeps(w: World, j: Journal, input: Inputs, g: Gate) returns (acts: seq<Act>)
    requires InvAt(w, g) && j == Load(w.file) && j.state == PackagesVerified
    ensures Did(w, g, StageVerified(w, j, input), acts)
  {
    LastFinds(j.history, 7);
    acts := [];
    if !j.history[7].verifyOk { return; }
    acts := [MarkerWritten];
    FoldOne(g, acts[0]);
    RecordKeeps(Acted(w, acts).(marker := true), j, ECommitted, input, Fold(g, acts));
  }

  lemma StageDid(w: World, j: Journal, input: Inputs, g: Gate) returns (acts: seq<Act>)
    requires InvAt(w, g) && j == Load(w.file)
    ensures Did(w, g, Stage(w, j, input), acts)
  {
    acts := [];
    if CrashesAt(input, j.state, BeforeActing) { return; }
    match j.state
    case New => StageLooks(w, j, input, g);
    case Created => StageLooks(w, j, input, g);
    case Detected => StageLooks(w, j, input, g);
    case Discovered => StageDiscoveredKeeps(w, j, input, g);
    case Proposed => acts := StageProposedKeeps(w, j, input, g);
    case Confirmed => acts := StageConfirmedKeeps(w, j, input, g);
    case NetworkRepaired =>
      StageRepairedKeeps(w, j, input, g);
      acts := [InstallTried(input.installOk)];
    case NetworkRepairFailed => LastFinds(j.history, 5);
    case PackagesInstalled => acts := StageInstalledKeeps(w, j, input, g);
    case PackagesVerified => acts := StageVerifiedKeeps(w, j, input, g);
    case Committed =>
  }

  predicate Kept(s: Step) { KeptAt(s, GateAfter(s.w.trace)) }

  lemma StageKeeps(w: World, j: Journal, input: Inputs)
    requires Inv(w) && j == Load(w.file)
    ensures Kept(Stage(w, j, input))
  {
    var acts := StageDid(w, j, input, GateAfter(w.trace));
    GateFold(w.trace, acts);
  }

  // ----- whole runs ----------------------------------------------------------------------------------------------

  lemma {:induction false} RunFromKeeps(w: World, j: Journal, input: Inputs)
    requires Inv(w) && j == Load(w.file)
    ensures Kept(RunFrom(w, j, input))
    decreases Ahead(j.state)
  {
    StageKeeps(w, j, input);
    var s := Stage(w, j, input);
    if s.On? { RunFromKeeps(s.w, s.j, input); }
  }

  lemma AfterKeeps(w: World, b: Boot)
    requires Inv(w)
    ensures Inv(After(w, b))
    ensures b.Boot? ==> Run(w, b.input).action != EntryMissing
  {
    if b.Boot? {
      if !w.marker { RunFromKeeps(w, Load(w.file), b.input); }
    } else {
      GateSnoc(w.trace, JournalLost);
    }
  }

  /** Main invariant: over every sequence of boots, crashes and journal losses the journal keeps its shape, and the
      trace keeps its order. */
  lemma {:induction false} BootsKeep(w: World, bs: seq<Boot>)
    requires Inv(w)
    ensures Inv(Boots(w, bs))
    decreases |bs|
  {
    if bs == [] {
    } else {
      AfterKeeps(w, bs[0]);
      BootsKeep(After(w, bs[0]), bs[1..]);
    }
  }

  // ----- what the invariant says ---------------------------------------------------------------------------------

  /** From index `from` on the journal was not lost. */
  predicate KeptSince(trace: seq<Act>, from: nat) { forall i :: from <= i < |trace| ==> trace[i] != JournalLost }

  predicate GenuineCheck(a: Act) { a.NetworkChecked? && Genuine(a.target, a.evidence) }

  /** The four required acts, in this order, since the journal was last lost. */
  predicate InOrder(trace: seq<Act>, a: nat, b: nat, c: nat, d: nat) {
    && a < b < c < d < |trace|
    && trace[a] == ConfirmRead
    && GenuineCheck(trace[b])
    && trace[c] == InstallTried(true)
    && trace[d] == VerifyTried(true)
    && KeptSince(trace, a)
  }

  lemma {:induction false} LevelOne(trace: seq<Act>) returns (a: nat)
    requires GateAfter(trace).level >= 1
    ensures a < |trace| && trace[a] == ConfirmRead && KeptSince(trace, a)
  {
    var n := |trace| - 1;
    if GateAfter(trace[..n]).level >= 1 {
      a := LevelOne(trace[..n]);
    } else {
      a := n;
    }
  }

  lemma {:induction false} LevelTwo(trace: seq<Act>) returns (a: nat, b: nat)
    requires GateAfter(trace).level >= 2
    ensures a < b < |trace| && trace[a] == ConfirmRead && GenuineCheck(trace[b]) && KeptSince(trace, a)
  {
    var n := |trace| - 1;
    if GateAfter(trace[..n]).level >= 2 {
      a, b := LevelTwo(trace[..n]);
    } else {
      a := LevelOne(trace[..n]);
      b := n;
    }
  }

  lemma {:induction false} LevelThree(trace: seq<Act>) returns (a: nat, b: nat, c: nat)
    requires GateAfter(trace).level >= 3
    ensures a < b < c < |trace| && trace[a] == ConfirmRead && GenuineCheck(trace[b]) && trace[c] == InstallTried(true)
    ensures KeptSince(trace, a)
  {
    var n := |trace| - 1;
    if GateAfter(trace[..n]).level >= 3 {
      a, b, c := LevelThree(trace[..n]);
    } else {
      a, b := LevelTwo(trace[..n]);
      c := n;
    }
  }

  lemma {:induction false} LevelFour(trace: seq<Act>) returns (a: nat, b: nat, c: nat, d: nat)
    requires GateAfter(trace).level >= 4
    ensures InOrder(trace, a, b, c, d)
  {
    var n := |trace| - 1;
    if GateAfter(trace[..n]).level >= 4 {
      a, b, c, d := LevelFour(trace[..n]);
    } else {
      a, b, c := LevelThree(trace[..n]);
      d := n;
    }
  }

  lemma {:induction false} LevelLasts(trace: seq<Act>, i: nat)
    requires i <= |trace| && KeptSince(trace, i)
    ensures GateAfter(trace).level >= GateAfter(trace[..i]).level
    decreases |trace|
  {
    var n := |trace| - 1;
    if i <= n {
      LevelLasts(trace[..n], i);
      assert trace[..n][..i] == trace[..i];
    } else {
      assert trace[..i] == trace;
    }
  }

  /** The level after an act, as it lasts while the journal is kept. */
  lemma LevelFrom(trace: seq<Act>, i: nat)
    requires i < |trace| && KeptSince(trace, i)
    ensures GateAfter(trace).level >= Advance(GateAfter(trace[..i]), trace[i]).level
  {
    LevelLasts(trace, i + 1);
    assert trace[..i + 1][..i] == trace[..i];
  }

  /** The level counts exactly what it is meant to: the four acts in order bring it to four, and with LevelFour
      nothing else does. */
  lemma InOrderReachesFour(trace: seq<Act>, a: nat, b: nat, c: nat, d: nat)
    requires InOrder(trace, a, b, c, d)
    ensures GateAfter(trace).level >= 4
  {
    LevelFrom(trace[..b], a);
    assert trace[..b][..a] == trace[..a];
    LevelFrom(trace[..c], b);
    assert trace[..c][..b] == trace[..b];
    LevelFrom(trace[..d], c);
    assert trace[..d][..c] == trace[..c];
    LevelFrom(trace, d);
  }

  /** Main theorem: on a factory-fresh machine, after any sequence of boots, crashes and journal losses, a completion
      marker exists only if at some moment CONFIRM had been read, then the network evidence was genuine, then the
      installation succeeded, then the verification succeeded, all since the journal was last lost. */
  lemma MarkerNeedsEveryGate(bs: seq<Boot>)
    requires Boots(FACTORY, bs).marker
    ensures exists m, a, b, c, d ::
              && 0 <= m < |Boots(FACTORY, bs).trace|
              && Boots(FACTORY, bs).trace[m] == MarkerWritten
              && InOrder(Boots(FACTORY, bs).trace[..m], a, b, c, d)
  {
    BootsKeep(FACTORY, bs);
    var trace := Boots(FACTORY, bs).trace;
    var m := MarkedInTrace(trace);
    SoundMeansAllowed(trace, m);
    var a, b, c, d := LevelFour(trace[..m]);
  }

  /** A committed journal implies the marker, and every lookup of an earlier entry succeeds. */
  lemma CommittedImpliesMarker(bs: seq<Boot>, input: Inputs)
    ensures var w := Boots(FACTORY, bs);
            && (w.file.Stored? ==> Shape(w.file.journal))
            && (w.file.Stored? && w.file.journal.state == Committed ==> w.marker)
            && Run(w, input).action != EntryMissing
  {
    BootsKeep(FACTORY, bs);
    AfterKeeps(Boots(FACTORY, bs), Boot(input));
  }

  /** A sound trace allowed every one of its acts when it happened. */
  lemma {:induction false} SoundMeansAllowed(trace: seq<Act>, m: nat)
    requires GateAfter(trace).sound && m < |trace|
    ensures Allowed(GateAfter(trace[..m]), trace[m])
  {
    var n := |trace| - 1;
    if m < n {
      SoundMeansAllowed(trace[..n], m);
      assert trace[..n][..m] == trace[..m];
    }
  }

  lemma {:induction false} MarkedInTrace(trace: seq<Act>) returns (m: nat)
    requires GateAfter(trace).marked
    ensures m < |trace| && trace[m] == MarkerWritten
  {
    var n := |trace| - 1;
    if trace[n] == MarkerWritten { m := n; } else { m := MarkedInTrace(trace[..n]); }
  }

  /** The diagnosis on screen when CONFIRM was last read, with the journal kept since. */
  ghost predicate ConfirmedOnScreen(trace: seq<Act>, d: Diagnosis) {
    exists a, b :: LastConfirm(trace, d, a, b)
  }

  /** `d` was the last diagnosis shown before the last CONFIRM, and the journal was kept since. */
  predicate LastConfirm(trace: seq<Act>, d: Diagnosis, a: nat, b: nat) {
    && a < b < |trace|
    && trace[a] == Shown(d) && (forall i :: a < i < b ==> !trace[i].Shown?)
    && trace[b] == ConfirmRead && (forall i :: b < i < |trace| ==> trace[i] != ConfirmRead)
    && KeptSince(trace, a)
  }

  lemma {:induction false} ShownInTrace(trace: seq<Act>) returns (a: nat)
    requires GateAfter(trace).shown.Some?
    ensures a < |trace| && trace[a] == Shown(GateAfter(trace).shown.value) && KeptSince(trace, a)
    ensures forall i :: a < i < |trace| ==> !trace[i].Shown?
  {
    var init, last := trace[..|trace| - 1], trace[|trace| - 1];
    if last.Shown? {
      a := |trace| - 1;
    } else {
      assert GateAfter(trace).shown == GateAfter(init).shown && last != JournalLost;
      a := ShownInTrace(init);
      assert trace == init + [last];
    }
  }

  lemma {:induction false} ConfirmedInTrace(trace: seq<Act>) returns (a: nat, b: nat)
    requires GateAfter(trace).confirmed.Some?
    ensures LastConfirm(trace, GateAfter(trace).confirmed.value, a, b)
  {
    var n := |trace| - 1;
    if trace[n] == ConfirmRead {
      a := ShownInTrace(trace[..n]);
      b := n;
    } else {
      a, b := ConfirmedInTrace(trace[..n]);
    }
  }

  /** After any number of restarts, the network is only ever changed as the operator saw it proposed and confirmed. */
  lemma NetworkWritesWereConfirmed(bs: seq<Boot>, m: nat)
    requires m < |Boots(FACTORY, bs).trace| && Boots(FACTORY, bs).trace[m].NetworkWritten?
    ensures ConfirmedOnScreen(Boots(FACTORY, bs).trace[..m], Boots(FACTORY, bs).trace[m].applied)
  {
    BootsKeep(FACTORY, bs);
    var trace := Boots(FACTORY, bs).trace;
    SoundMeansAllowed(trace, m);
    var a, b := ConfirmedInTrace(trace[..m]);
  }
}
