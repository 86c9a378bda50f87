/** When a boot commits, and which outcomes no later boot changes. */
module FirstBootProgress {
  import opened Basics
  import opened FirstBootModel
  import opened FirstBootSafety

  // ----- evidence ------------------------------------------------------------------------------------------------

  /** The lifeline was judged healthy exactly when its facts are genuine evidence for every named target. */
  lemma HealthyFactsAreEvidence(facts: seq<Fact>, target: string)
    ensures Genuine(target, FactsEvidence(facts)) <==> target != "" && Lifeline(facts)
  {
    assert FactsEvidence(facts)["address"] == ToCheck(FactHolds(facts, "address_assigned"));
    assert FactsEvidence(facts)["gateway"] == ToCheck(FactHolds(facts, "gateway_reachable"));
  }

  // ----- absorbing outcomes --------------------------------------------------------------------------------------

  /** A recorded failure, or a proposal for which no safe repair could be derived. */
  predicate Stuck(w: World)
    requires Inv(w)
  {
    && !w.marker && w.file.Stored?
    && StuckJournal(w.file.journal)
  }

  lemma StuckBoot(w: World, input: Inputs)
    requires Inv(w) && Stuck(w)
    ensures Run(w, input).w == w
  {
    var h := w.file.journal.history;
    LastFinds(h, |h| - 1);
  }

  /** A failure stays a failure: any number of further boots, whatever they meet, change nothing, prompt nobody and
      write nothing, until the journal is lost. */
  lemma {:induction false} FailuresAbsorb(w: World, inputs: seq<Inputs>)
    requires Inv(w) && Stuck(w)
    ensures Boots(w, seq(|inputs|, i requires 0 <= i < |inputs| => Boot(inputs[i]))) == w
    decreases |inputs|
  {
    var bs := seq(|inputs|, i requires 0 <= i < |inputs| => Boot(inputs[i]));
    if inputs != [] {
      var rest := seq(|inputs| - 1, i requires 0 <= i < |inputs| - 1 => Boot(inputs[1..][i]));
      assert bs[1..] == rest;
      StuckBoot(w, inputs[0]);
      FailuresAbsorb(w, inputs[1..]);
    }
  }

  predicate Failure(a: Action) { a in {Refused, NetworkFailed, PackagesFailed, VerifyFailed} }

  /** The journal on disk ends in a failure, or in a proposal nobody can act on. */
  predicate StuckJournal(j: Journal)
    requires Shape(j)
  {
    || j.state == NetworkRepairFailed
    || (j.state == PackagesInstalled && !j.history[6].installOk)
    || (j.state == PackagesVerified && !j.history[7].verifyOk)
    || (j.state == Proposed && j.history[3].diagnosis.needsRepair && j.history[3].diagnosis.mode.None?)
  }

  /** A stage that ends a run with a failure leaves a stuck journal on disk. */
  lemma StageFailureSticks(w: World, j: Journal, input: Inputs)
    requires Shape(j) && j == Load(w.file)
    requires Stage(w, j, input).End? && Failure(Stage(w, j, input).action)
    ensures var f := Stage(w, j, input).w.file; f.Stored? && Shape(f.journal) && StuckJournal(f.journal)
    ensures Stage(w, j, input).w.marker == w.marker
  {
    if j.state == Confirmed {
      RepairFailureSticks(w, j, input);
      FailureAppended(j, ENetworkRepairFailed);
    } else if j.state == NetworkRepaired {
      InstallFailureSticks(w, j, input);
      FailureAppended(j, EPackagesInstalled(false));
    } else if j.state == PackagesInstalled {
      VerifyFailureSticks(w, j, input);
      if j.history[6].installOk { FailureAppended(j, EPackagesVerified(false)); }
    } else {
      OldFailureSticks(w, j, input);
    }
  }

  /** A failure after a history that leads to it makes a stuck journal. */
  lemma FailureAppended(j: Journal, entry: Entry)
    requires Shape(j)
    requires || (j.state == Confirmed && entry == ENetworkRepairFailed)
             || (j.state == NetworkRepaired && entry == EPackagesInstalled(false))
             || (j.state == PackagesInstalled && j.history[6].installOk && entry == EPackagesVerified(false))
    ensures var j' := Journal(entry.StateOf(), j.history + [entry]); Shape(j') && StuckJournal(j')
  {
  }

  lemma OldFailureSticks(w: World, j: Journal, input: Inputs)
    requires Shape(j) && j.state !in {Confirmed, NetworkRepaired, PackagesInstalled}
    requires Stage(w, j, input).End? && Failure(Stage(w, j, input).action)
    ensures Stage(w, j, input).w == w && j.history != [] && StuckJournal(j)
  {
    if j.state == Proposed { LastFinds(j.history, 3); }
    if j.state == PackagesVerified { LastFinds(j.history, 7); }
  }

  lemma InstallFailureSticks(w: World, j: Journal, input: Inputs)
    requires Shape(j) && j.state == NetworkRepaired
    requires StageRepaired(w, j, input).End? && Failure(StageRepaired(w, j, input).action)
    ensures StageRepaired(w, j, input).w.file ==
            Stored(Journal(PackagesInstalled, j.history + [EPackagesInstalled(false)]))
    ensures StageRepaired(w, j, input).w.marker == w.marker
  {
  }

  lemma VerifyFailureSticks(w: World, j: Journal, input: Inputs)
    requires Shape(j) && j.state == PackagesInstalled
    requires StageInstalled(w, j, input).End? && Failure(StageInstalled(w, j, input).action)
    ensures if j.history[6].installOk then
              StageInstalled(w, j, input).w.file ==
              Stored(Journal(PackagesVerified, j.history + [EPackagesVerified(false)]))
            else StageInstalled(w, j, input).w.file == w.file
    ensures StageInstalled(w, j, input).w.marker == w.marker
  {
    LastFinds(j.history, 6);
  }

  lemma RepairFailureSticks(w: World, j: Journal, input: Inputs)
    requires Shape(j) && j.state == Confirmed
    requires StageConfirmed(w, j, input).End? && Failure(StageConfirmed(w, j, input).action)
    ensures StageConfirmed(w, j, input).w.file
            == Stored(Journal(NetworkRepairFailed, j.history + [ENetworkRepairFailed]))
    ensures StageConfirmed(w, j, input).w.marker == w.marker
  {
    LastFinds(j.history, 2);
    LastFinds(j.history, 3);
  }

  /** Only the last stage before `committed` writes the marker, and then the run goes on. */
  lemma StageMarks(w: World, j: Journal, input: Inputs)
    requires !w.marker
    ensures Stage(w, j, input).On? && Stage(w, j, input).w.marker ==> Stage(w, j, input).j.state == Committed
  {
  }

  /** Every failure a run reports is one that later runs will not change. */
  lemma {:induction false} FailureSticks(w: World, j: Journal, input: Inputs)
    requires Inv(w) && j == Load(w.file) && (w.marker ==> j.state == Committed)
    requires Failure(RunFrom(w, j, input).action)
    ensures Inv(RunFrom(w, j, input).w) && Stuck(RunFrom(w, j, input).w)
    decreases Ahead(j.state)
  {
    var s := Stage(w, j, input);
    StageKeeps(w, j, input);
    if s.On? {
      StageMarks(w, j, input);
      FailureSticks(s.w, s.j, input);
    } else {
      StageFailureSticks(w, j, input);
    }
  }

  /** Once the marker exists no boot and no journal loss removes it, and no boot does anything any more. */
  lemma {:induction false} CompletionIsFinal(w: World, bs: seq<Boot>)
    requires w.marker
    ensures Boots(w, bs).marker
    ensures forall input :: Run(Boots(w, bs), input) == End(Boots(w, bs), AlreadyCompleted)
    decreases |bs|
  {
    if bs != [] { CompletionIsFinal(After(w, bs[0]), bs[1..]); }
  }

  // ----- exactly when a boot commits -----------------------------------------------------------------------------

  predicate LifelineSeen(j: Journal, input: Inputs)
    requires Shape(j)
  { if |j.history| > 2 then j.history[2].lifelineOk else Lifeline(input.facts) }

  function DiagnosisUsed(j: Journal, input: Inputs): Diagnosis
    requires Shape(j)
  {
    if |j.history| > 3 then j.history[3].diagnosis
    else if LifelineSeen(j, input) then Diagnosis(false, None, "")
    else Diagnosis(true, input.mode, input.target)
  }

  predicate Authorized(j: Journal, input: Inputs)
    requires Shape(j)
  {
    |j.history| > 4 || (!(DiagnosisUsed(j, input).needsRepair && DiagnosisUsed(j, input).mode.None?)
                        && ConfirmTyped(input.lines))
  }

  predicate NetworkGood(j: Journal, input: Inputs)
    requires Shape(j)
  {
    if |j.history| > 5 then j.history[5].ENetworkRepaired?
    else if DiagnosisUsed(j, input).needsRepair then
      input.repair.ok && Genuine(DiagnosisUsed(j, input).target, input.repair.evidence)
    else input.observed != ""
  }

  /** What still has to go well from a journal, in terms of what is recorded and what the run will meet. */
  predicate WillCommit(j: Journal, input: Inputs)
    requires Shape(j)
  {
    && Authorized(j, input)
    && NetworkGood(j, input)
    && (if |j.history| > 6 then j.history[6].installOk else input.installOk)
    && (if |j.history| > 7 then j.history[7].verifyOk else input.verifyOk)
  }

  /** A stage before the marker keeps the verdict: it hands on a journal with the same one, or ends a run that was
      not going to commit. */
  predicate Moves(j: Journal, input: Inputs, s: Step)
    requires Shape(j)
  {
    && !s.w.marker
    && (s.On? ==> Shape(s.j) && (WillCommit(j, input) <==> WillCommit(s.j, input)))
    && (s.End? ==> !WillCommit(j, input))
  }

  lemma RecordMoves(w: World, j: Journal, entry: Entry, input: Inputs)
    requires Shape(j) && !w.marker && input.crash.None? && Extends(j, entry)
    requires WillCommit(j, input) <==> WillCommit(Journal(entry.StateOf(), j.history + [entry]), input)
    ensures Moves(j, input, Record(w, j, entry, input))
  {
  }

  lemma EarlyMoves(w: World, j: Journal, input: Inputs)
    requires Shape(j) && !w.marker && input.crash.None?
    requires j.state in {New, Created, Detected, Discovered}
    ensures Moves(j, input, Stage(w, j, input))
  {
    match j.state
    case New => RecordMoves(w, j, ECreated, input);
    case Created => RecordMoves(w, j, EDetected(input.installed), input);
    case Detected => RecordMoves(w, j, EDiscovered(input.facts, Lifeline(input.facts)), input);
    case Discovered =>
      LastFinds(j.history, 2);
      RecordMoves(w, j, EProposed(DiagnosisUsed(j, input)), input);
  }

  lemma ProposedMoves(w: World, j: Journal, input: Inputs)
    requires Shape(j) && !w.marker && input.crash.None? && j.state == Proposed
    ensures Moves(j, input, StageProposed(w, j, input))
  {
    LastFinds(j.history, 1);
    LastFinds(j.history, 2);
    LastFinds(j.history, 3);
    var d := j.history[3].diagnosis;
    if !(d.needsRepair && d.mode.None?) && ConfirmTyped(input.lines) {
      RecordMoves(Acted(w, [Shown(d), ConfirmRead]), j, EConfirmed, input);
    }
  }

  lemma RecordRepairedMoves(w: World, j: Journal, target: string, evidence: Evidence, input: Inputs)
    requires Shape(j) && !w.marker && input.crash.None? && j.state == Confirmed
    requires NetworkGood(j, input) <==> Genuine(target, evidence)
    ensures Moves(j, input, RecordRepaired(w, j, target, evidence, input))
  {
    if Genuine(target, evidence) { RecordMoves(w, j, ENetworkRepaired(target, evidence), input); }
  }

  lemma ConfirmedMoves(w: World, j: Journal, input: Inputs)
    requires Shape(j) && !w.marker && input.crash.None? && j.state == Confirmed
    ensures Moves(j, input, StageConfirmed(w, j, input))
  {
    var h := j.history;
    LastFinds(h, 2);
    LastFinds(h, 3);
    var d := h[3].diagnosis;
    if !d.needsRepair {
      HealthyFactsAreEvidence(h[2].facts, input.observed);
      var acts := [NetworkChecked(input.observed, FactsEvidence(h[2].facts))];
      RecordRepairedMoves(Acted(w, acts), j, input.observed, FactsEvidence(h[2].facts), input);
    } else if input.repair.ok {
      var w' := Acted(Acted(w, [NetworkWritten(d)]), [NetworkChecked(d.target, input.repair.evidence)]);
      RecordRepairedMoves(w', j, d.target, input.repair.evidence, input);
    }
  }

  lemma LateMoves(w: World, j: Journal, input: Inputs)
    requires Shape(j) && !w.marker && input.crash.None?
    requires j.state in {NetworkRepaired, NetworkRepairFailed, PackagesInstalled}
    ensures Moves(j, input, Stage(w, j, input))
  {
    match j.state
    case NetworkRepaired =>
      if input.installOk {
        RecordMoves(Acted(w, [InstallTried(true)]), j, EPackagesInstalled(true), input);
      }
    case NetworkRepairFailed =>
    case PackagesInstalled =>
      LastFinds(j.history, 6);
      if j.history[6].installOk && input.verifyOk {
        RecordMoves(Acted(w, [VerifyTried(true)]), j, EPackagesVerified(true), input);
      }
  }

  /** The last stage writes the marker exactly when the verification on record succeeded. */
  lemma VerifiedDecides(w: World, j: Journal, input: Inputs)
    requires Shape(j) && !w.marker && input.crash.None? && j.state == PackagesVerified
    ensures Stage(w, j, input).w.marker <==> WillCommit(j, input)
    ensures Stage(w, j, input).On? ==> Stage(w, j, input).j.state == Committed
  {
    LastFinds(j.history, 7);
  }

  lemma StageMoves(w: World, j: Journal, input: Inputs)
    requires Shape(j) && !w.marker && input.crash.None? && j.state !in {PackagesVerified, Committed}
    ensures Moves(j, input, Stage(w, j, input))
  {
    if j.state == Proposed { ProposedMoves(w, j, input); }
    else if j.state == Confirmed { ConfirmedMoves(w, j, input); }
    else if j.state in {New, Created, Detected, Discovered} { EarlyMoves(w, j, input); }
    else { LateMoves(w, j, input); }
  }

  lemma {:induction false} RunFromCommitsExactly(w: World, j: Journal, input: Inputs)
    requires Shape(j) && !w.marker && input.crash.None? && j.state != Committed
    ensures RunFrom(w, j, input).w.marker <==> WillCommit(j, input)
    decreases Ahead(j.state)
  {
    var s := Stage(w, j, input);
    if j.state == PackagesVerified {
      VerifiedDecides(w, j, input);
      if s.On? { assert RunFrom(s.w, s.j, input) == Stage(s.w, s.j, input) == End(s.w, Done); }
    } else {
      StageMoves(w, j, input);
      if s.On? {
        NotYetCommitted(w, j, input);
        RunFromCommitsExactly(s.w, s.j, input);
      }
    }
  }

  lemma NotYetCommitted(w: World, j: Journal, input: Inputs)
    requires j.state !in {PackagesVerified, Committed}
    ensures Stage(w, j, input).On? ==> Stage(w, j, input).j.state != Committed
  {
  }

  /** From every reachable world without a marker, a boot that is not cut short writes the marker if and only if
      CONFIRM is typed (or was already journalled), a repair is possible or unneeded, the network then verifies with
      genuine evidence, and installation and verification succeed, now or on record. */
  lemma BootCommitsExactly(bs: seq<Boot>, input: Inputs)
    requires !Boots(FACTORY, bs).marker && input.crash.None?
    ensures Shape(Load(Boots(FACTORY, bs).file))
    ensures Run(Boots(FACTORY, bs), input).w.marker <==> WillCommit(Load(Boots(FACTORY, bs).file), input)
  {
    BootsKeep(FACTORY, bs);
    RunFromCommitsExactly(Boots(FACTORY, bs), Load(Boots(FACTORY, bs).file), input);
  }
}
