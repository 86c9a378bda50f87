/** What a boot reports, records and does, told at once from the journal it finds and what it meets. */
module FirstBootStory {
  import opened Basics
  import opened FirstBootModel
  import opened FirstBootSafety

  // The nine entries of a first boot, as far as recorded and else as this boot would write them; and whether consent is
  // on record or given now.
  datatype Story = Story(entries: seq<Entry>, consent: bool)

  function FactsSeen(h: seq<Entry>, input: Inputs): seq<Fact>
    requires OnPath(h)
  { if |h| > 2 then h[2].facts else input.facts }

  function HealthSeen(h: seq<Entry>, input: Inputs): bool
    requires OnPath(h)
  {
    if |h| > 2 then h[2].lifelineOk
    else FactHolds(input.facts, "address_assigned") && FactHolds(input.facts, "gateway_reachable")
  }

  function DiagnosisSeen(h: seq<Entry>, input: Inputs): Diagnosis
    requires OnPath(h)
  {
    if |h| > 3 then h[3].diagnosis
    else if HealthSeen(h, input) then Diagnosis(false, None, "")
    else Diagnosis(true, input.mode, input.target)
  }

  /** The network entry: the result of the repair, or the facts of a healthy network under the observed device. */
  function NetworkSeen(h: seq<Entry>, input: Inputs): Entry
    requires OnPath(h)
  {
    var d, facts := DiagnosisSeen(h, input), FactsSeen(h, input);
    if |h| > 5 then h[5]
    else if !d.needsRepair then
      ENetworkRepaired(input.observed, map["address" := Checked(facts, "address_assigned"),
                                           "gateway" := Checked(facts, "gateway_reachable")])
    else if input.repair.ok then ENetworkRepaired(d.target, input.repair.evidence)
    else ENetworkRepairFailed
  }

  function Checked(facts: seq<Fact>, name: string): Check { if FactHolds(facts, name) then Yes else No }

  function StoryOf(h: seq<Entry>, input: Inputs): (s: Story)
    requires OnPath(h)
    ensures Told(s)
  {
    Story([ECreated,
           if |h| > 1 then h[1] else EDetected(input.installed),
           EDiscovered(FactsSeen(h, input), HealthSeen(h, input)),
           EProposed(DiagnosisSeen(h, input)),
           EConfirmed,
           NetworkSeen(h, input),
           if |h| > 6 then h[6] else EPackagesInstalled(input.installOk),
           if |h| > 7 then h[7] else EPackagesVerified(input.verifyOk),
           ECommitted],
          |h| > 4 || ConfirmTyped(input.lines))
  }

  predicate Told(s: Story) {
    var e := s.entries;
    && |e| == 9 && e[0].ECreated? && e[1].EDetected? && e[2].EDiscovered? && e[3].EProposed? && e[4].EConfirmed?
    && (e[5].ENetworkRepaired? || e[5].ENetworkRepairFailed?)
    && e[6].EPackagesInstalled? && e[7].EPackagesVerified? && e[8].ECommitted?
  }

  // Where a boot ends, and why.
  datatype Ending = Ending(action: Action, entries: nat)

  /** No safe repair, no consent, a failed repair, evidence that is not genuine, a failed installation, a failed
      verification, or completion: the first that applies, with the number of entries the journal then has. */
  function EndingOf(s: Story): (e: Ending)
    requires Told(s)
    ensures 4 <= e.entries <= 9
  {
    var d, net := s.entries[3].diagnosis, s.entries[5];
    if d.needsRepair && d.mode.None? then Ending(Refused, 4)
    else if !s.consent then Ending(Declined, 4)
    else if net.ENetworkRepairFailed? then Ending(NetworkFailed, 6)
    else if net.target == "" || net.evidence == map[] || (exists k :: k in net.evidence && net.evidence[k] != Yes) then
      Ending(EvidenceRejected, 5)
    else if !s.entries[6].installOk then Ending(PackagesFailed, 7)
    else if !s.entries[7].verifyOk then Ending(VerifyFailed, 8)
    else Ending(Done, 9)
  }

  /** What is done on the way to the `k`-th entry. */
  function ActsFor(s: Story, k: nat): seq<Act>
    requires Told(s) && k < 9
  {
    var d, net := s.entries[3].diagnosis, s.entries[5];
    if k == 4 then [Shown(d), ConfirmRead]
    else if k == 5 then
      (if d.needsRepair then [NetworkWritten(d)] else [])
      + (if net.ENetworkRepaired? then [NetworkChecked(net.target, net.evidence)] else [])
    else if k == 6 then [InstallTried(s.entries[6].installOk)]
    else if k == 7 then [VerifyTried(s.entries[7].verifyOk)]
    else if k == 8 then [MarkerWritten]
    else []
  }

  /** Everything that is done from the `k`-th entry on. */
  function ActsFrom(s: Story, k: nat): seq<Act>
    requires Told(s) && k <= 9
    decreases 9 - k
  {
    var end := EndingOf(s);
    if k < end.entries then ActsFor(s, k) + ActsFrom(s, k + 1)
    else if end.action == Declined then [Shown(s.entries[3].diagnosis)]
    else if end.action == EvidenceRejected then ActsFor(s, 5)
    else []
  }

  /** A world that is as a boot with this story leaves it. */
  predicate LeftBy(w: World, s: Story, t: Step)
    requires Told(s)
  {
    var end := EndingOf(s);
    && t.End? && t.action == end.action
    && t.w.file.Stored? && t.w.file.journal.history == s.entries[..end.entries]
    && t.w.file.journal.state == s.entries[end.entries - 1].StateOf()
    && t.w.marker == (w.marker || end.action == Done)
  }

  /** What a stage that goes on leaves, in terms of the story alone. */
  predicate Advances(w: World, s: Story, k: nat, t: Step)
    requires Told(s) && k < 9
  {
    && t.On? && k < EndingOf(s).entries && t.j.history == s.entries[..k + 1] && t.w.file == Stored(t.j)
    && t.w.trace == w.trace + ActsFor(s, k) && t.w.marker == (w.marker || k == 8)
  }

  /** A stage either adds the next entry and its acts, or ends the story. */
  predicate Follows(w: World, j: Journal, input: Inputs, t: Step)
    requires Shape(j)
  {
    var s, k := StoryOf(j.history, input), |j.history|;
    if t.On? then
      k < 9 && Advances(w, s, k, t) && |t.j.history| == k + 1 && Shape(t.j) && StoryOf(t.j.history, input) == s
    else LeftBy(w, s, t) && t.w.trace == w.trace + ActsFrom(s, k)
  }

  // ----- stage by stage ------------------------------------------------------------------------------------------

  lemma Recorded(h: seq<Entry>, input: Inputs)
    requires OnPath(h)
    ensures StoryOf(h, input).entries[..|h|] == h
  {
  }

  /** The next entry of a story leaves it the same. */
  lemma SameStory(h: seq<Entry>, input: Inputs)
    requires OnPath(h) && |h| < EndingOf(StoryOf(h, input)).entries
    ensures var next := h + [StoryOf(h, input).entries[|h|]]; OnPath(next) && StoryOf(next, input) == StoryOf(h, input)
  {
    var s := StoryOf(h, input);
    var next := h + [s.entries[|h|]];
    forall i | 0 <= i < 9 ensures i < |next| ==> next[i] == s.entries[i] { }
  }

  /** Acting for the next entry and recording it is what a story goes on with. */
  lemma WritesNext(w: World, j: Journal, input: Inputs)
    requires Shape(j) && input.crash.None? && |j.history| < EndingOf(StoryOf(j.history, input)).entries
    requires Extends(j, StoryOf(j.history, input).entries[|j.history|])
    ensures var s, k := StoryOf(j.history, input), |j.history|;
            var t := Record(Acted(w, ActsFor(s, k)).(marker := w.marker || k == 8), j, s.entries[k], input);
            Follows(w, j, input, t)
  {
    SameStory(j.history, input);
    Recorded(j.history, input);
  }

  /** The same when the entry just written is the last one. */
  lemma WritesLast(w: World, j: Journal, input: Inputs)
    requires Shape(j) && input.crash.None?
    requires EndingOf(StoryOf(j.history, input)).entries == |j.history| + 1 < 9
    ensures var s, k := StoryOf(j.history, input), |j.history|;
            var t := Record(Acted(w, ActsFor(s, k)), j, s.entries[k], input);
            t.On? && (EndingOf(s).action !in {Declined, EvidenceRejected} ==>
                        Follows(w, j, input, End(t.w, EndingOf(s).action)))
  {
    var s, k := StoryOf(j.history, input), |j.history|;
    Recorded(j.history, input);
    assert ActsFrom(s, k + 1) == [] || EndingOf(s).action in {Declined, EvidenceRejected};
    assert ActsFrom(s, k) == ActsFor(s, k) + ActsFrom(s, k + 1);
    assert s.entries[..k + 1] == j.history + [s.entries[k]];
  }

  lemma EarlyFollows(w: World, j: Journal, input: Inputs)
    requires Shape(j) && j == Load(w.file) && input.crash.None? && j.state in {New, Created, Detected, Discovered}
    ensures Follows(w, j, input, Stage(w, j, input))
  {
    if j.state == Discovered { LastFinds(j.history, 2); }
    assert Acted(w, []).(marker := w.marker) == w;
    WritesNext(w, j, input);
  }

  lemma ProposedFollows(w: World, j: Journal, input: Inputs)
    requires Shape(j) && j == Load(w.file) && input.crash.None? && j.state == Proposed
    ensures Follows(w, j, input, StageProposed(w, j, input))
  {
    LastFinds(j.history, 1);
    LastFinds(j.history, 2);
    LastFinds(j.history, 3);
    Recorded(j.history, input);
    var s := StoryOf(j.history, input);
    if EndingOf(s).entries == 4 {
      assert ActsFrom(s, 4) == if EndingOf(s).action == Declined then [Shown(j.history[3].diagnosis)] else [];
      assert Acted(w, []) == w;
    } else {
      WritesNext(w, j, input);
    }
  }

  lemma ConfirmedFollows(w: World, j: Journal, input: Inputs)
    requires Shape(j) && j == Load(w.file) && input.crash.None? && j.state == Confirmed
    ensures Follows(w, j, input, StageConfirmed(w, j, input))
  {
    LastFinds(j.history, 2);
    LastFinds(j.history, 3);
    Recorded(j.history, input);
    var s := StoryOf(j.history, input);
    var d, net := s.entries[3].diagnosis, s.entries[5];
    NetworkActs(w, s);
    if net.ENetworkRepairFailed? {
      WritesLast(w, j, input);
    } else if !Genuine(net.target, net.evidence) {
      assert ActsFrom(s, 5) == ActsFor(s, 5);
    } else {
      WritesNext(w, j, input);
    }
  }

  /** The acts for the network entry, one by one. */
  lemma NetworkActs(w: World, s: Story)
    requires Told(s)
    ensures var d, net := s.entries[3].diagnosis, s.entries[5];
            Acted(w, ActsFor(s, 5)) ==
              var w' := if d.needsRepair then Acted(w, [NetworkWritten(d)]) else w;
              if net.ENetworkRepaired? then Acted(w', [NetworkChecked(net.target, net.evidence)]) else w'
  {
    var d, net := s.entries[3].diagnosis, s.entries[5];
    assert Acted(w, []) == w;
  }

  lemma LateFollows(w: World, j: Journal, input: Inputs)
    requires Shape(j) && j == Load(w.file) && input.crash.None?
    requires j.state in {NetworkRepaired, NetworkRepairFailed, PackagesInstalled, PackagesVerified}
    ensures Follows(w, j, input, Stage(w, j, input))
  {
    var k := |j.history|;
    LastFinds(j.history, k - 1);
    Recorded(j.history, input);
    var s := StoryOf(j.history, input);
    if EndingOf(s).entries == k {
      assert s.entries[..k] == j.history && ActsFrom(s, k) == [];
      assert w.trace + [] == w.trace;
    } else if EndingOf(s).entries == k + 1 && k < 8 {
      WritesLast(w, j, input);
    } else {
      WritesNext(w, j, input);
    }
  }

  lemma StageFollows(w: World, j: Journal, input: Inputs)
    requires Shape(j) && j == Load(w.file) && input.crash.None? && j.state != Committed
    ensures Follows(w, j, input, Stage(w, j, input))
  {
    if j.state == Proposed { ProposedFollows(w, j, input); }
    else if j.state == Confirmed { ConfirmedFollows(w, j, input); }
    else if j.state in {New, Created, Detected, Discovered} { EarlyFollows(w, j, input); }
    else { LateFollows(w, j, input); }
  }

  // ----- whole runs ----------------------------------------------------------------------------------------------

  lemma ActsStep(s: Story, k: nat, trace: seq<Act>)
    requires Told(s) && k < EndingOf(s).entries
    ensures ActsFrom(s, k) == ActsFor(s, k) + ActsFrom(s, k + 1)
    ensures trace + ActsFrom(s, k) == trace + ActsFor(s, k) + ActsFrom(s, k + 1)
  {
  }

  lemma AdvancesThen(w: World, s: Story, k: nat, t: Step, end: Step)
    requires Told(s) && k < 9 && Advances(w, s, k, t) && LeftBy(t.w, s, end)
    requires end.w.trace == t.w.trace + ActsFrom(s, k + 1)
    ensures LeftBy(w, s, end) && end.w.trace == w.trace + ActsFrom(s, k)
  {
    ActsStep(s, k, w.trace);
  }

  lemma LastAdvance(w: World, s: Story, t: Step)
    requires Told(s) && Advances(w, s, 8, t) && t.j.state == Committed
    ensures LeftBy(t.w, s, End(t.w, Done)) && t.w.trace == t.w.trace + ActsFrom(s, 9)
  {
    assert s.entries[..9][8] == s.entries[8];
  }

  lemma {:induction false} RunFollows(w: World, j: Journal, input: Inputs)
    requires Shape(j) && j == Load(w.file) && input.crash.None? && j.state != Committed
    ensures var s, t := StoryOf(j.history, input), RunFrom(w, j, input);
            LeftBy(w, s, t) && t.w.trace == w.trace + ActsFrom(s, |j.history|)
    decreases Ahead(j.state)
  {
    var s, k, t := StoryOf(j.history, input), |j.history|, Stage(w, j, input);
    StageFollows(w, j, input);
    if t.On? {
      if t.j.state == Committed {
        LastAdvance(w, s, t);
      } else {
        RunFollows(t.w, t.j, input);
      }
      AdvancesThen(w, s, k, t, RunFrom(t.w, t.j, input));
    }
  }

  function Uncut(input: Inputs): Inputs { input.(crash := None) }

  /** A stage that is cut short has done all or nothing of what it does, and journalled all or nothing. */
  lemma StageCut(w: World, j: Journal, input: Inputs)
    ensures var t, u := Stage(w, j, input), Stage(w, j, Uncut(input));
            || t == u
            || (t.End? && t.action == Crashed && input.crash.Some? && t.w.file in {w.file, u.w.file}
                && t.w.trace in {w.trace, u.w.trace} && t.w.marker in {w.marker, u.w.marker})
  {
  }

  /** A run that was cut short has told a beginning of its story. */
  predicate Beginning(w: World, s: Story, k: nat, t: Step)
    requires Told(s) && k <= 9
  {
    var end := EndingOf(s);
    && t.End? && t.action == Crashed
    && (t.w.file == w.file || (t.w.file.Stored? && t.w.file.journal.history <= s.entries[..end.entries]))
    && w.trace <= t.w.trace <= w.trace + ActsFrom(s, k)
    && (t.w.marker ==> w.marker || end.action == Done)
  }

  lemma {:induction false} RunCut(w: World, j: Journal, input: Inputs)
    requires Shape(j) && j == Load(w.file) && j.state != Committed
    ensures var s, t := StoryOf(j.history, input), RunFrom(w, j, input);
            || t == RunFrom(w, j, Uncut(input))
            || (input.crash.Some? && Beginning(w, s, |j.history|, t))
    decreases Ahead(j.state)
  {
    var s, k, t := StoryOf(j.history, input), |j.history|, Stage(w, j, input);
    StageCutShort(w, j, input);
    if t == Stage(w, j, Uncut(input)) && t.On? {
      var end := RunFrom(t.w, t.j, input);
      if t.j.state == Committed {
        CommittedCut(t.w, t.j, input);
        CutAdvance(w, s, k, t, End(t.w, Crashed));
      } else {
        RunCut(t.w, t.j, input);
        if end != RunFrom(t.w, t.j, Uncut(input)) { CutLater(w, s, k, t, end); }
      }
    }
  }

  lemma StageCutShort(w: World, j: Journal, input: Inputs)
    requires Shape(j) && j == Load(w.file) && j.state != Committed
    ensures var s, k, t := StoryOf(j.history, input), |j.history|, Stage(w, j, input);
            if t == Stage(w, j, Uncut(input)) then Follows(w, j, input, t)
            else t.End? && input.crash.Some? && Beginning(w, s, k, t)
  {
    var s, k := StoryOf(j.history, input), |j.history|;
    var t, u := Stage(w, j, input), Stage(w, j, Uncut(input));
    StageCut(w, j, input);
    StageFollows(w, j, Uncut(input));
    SameButCut(w, j, input, u);
    if t != u {
      if u.On? { CutAdvance(w, s, k, u, t); } else { CutEnding(w, s, k, u, t); }
    }
  }

  lemma SameButCut(w: World, j: Journal, input: Inputs, u: Step)
    requires Shape(j) && Follows(w, j, Uncut(input), u)
    ensures Follows(w, j, input, u)
  {
    assert StoryOf(j.history, Uncut(input)) == StoryOf(j.history, input);
    if u.On? { assert StoryOf(u.j.history, Uncut(input)) == StoryOf(u.j.history, input); }
  }

  lemma CommittedCut(w: World, j: Journal, input: Inputs)
    requires j.state == Committed
    ensures RunFrom(w, j, input) in {End(w, Done), End(w, Crashed)} && RunFrom(w, j, Uncut(input)) == End(w, Done)
    ensures RunFrom(w, j, input) == End(w, Crashed) ==> input.crash.Some?
  {
  }

  /** Cut short in a stage that goes on, */
  lemma CutAdvance(w: World, s: Story, k: nat, u: Step, t: Step)
    requires Told(s) && k < 9 && Advances(w, s, k, u) && t.End? && t.action == Crashed
    requires t.w.file in {w.file, u.w.file} && t.w.trace in {w.trace, u.w.trace} && t.w.marker in {w.marker, u.w.marker}
    ensures Beginning(w, s, k, t)
  {
    ActsStep(s, k, w.trace);
  }

  /** in a stage that ends the run, */
  lemma CutEnding(w: World, s: Story, k: nat, u: Step, t: Step)
    requires Told(s) && k <= 9 && LeftBy(w, s, u) && u.w.trace == w.trace + ActsFrom(s, k)
    requires t.End? && t.action == Crashed
    requires t.w.file in {w.file, u.w.file} && t.w.trace in {w.trace, u.w.trace} && t.w.marker in {w.marker, u.w.marker}
    ensures Beginning(w, s, k, t)
  {
  }

  /** or later. */
  lemma CutLater(w: World, s: Story, k: nat, t: Step, end: Step)
    requires Told(s) && k < 9 && Advances(w, s, k, t) && Beginning(t.w, s, k + 1, end)
    ensures Beginning(w, s, k, end)
  {
    ActsStep(s, k, w.trace);
  }

  /** Main theorem: from every reachable world a boot reports completion at once if the marker exists; else it leaves
      exactly what its story says, entries, acts, marker and report; or it was cut short, and has told a beginning. */
  lemma BootTellsExactly(bs: seq<Boot>, input: Inputs)
    ensures var w := Boots(FACTORY, bs);
            && Shape(Load(w.file))
            && var h, t := Load(w.file).history, Run(w, input);
               if w.marker then t == End(w, AlreadyCompleted)
               else var s := StoryOf(h, input);
                    || (LeftBy(w, s, t) && t.w.trace == w.trace + ActsFrom(s, |h|))
                    || (input.crash.Some? && Beginning(w, s, |h|, t))
  {
    BootsKeep(FACTORY, bs);
    var w := Boots(FACTORY, bs);
    if !w.marker {
      var j := Load(w.file);
      RunCut(w, j, input);
      RunFollows(w, j, Uncut(input));
      assert StoryOf(j.history, Uncut(input)) == StoryOf(j.history, input);
    }
  }

  // ----- what a report means -------------------------------------------------------------------------------------

  /** What is on disk and on screen when a run reports this. */
  predicate Means(w: World, action: Action, t: World) {
    var h := Load(t.file).history;
    match action
    case AlreadyCompleted => t == w && t.marker
    case Done => t.marker && h != [] && h[|h| - 1] == ECommitted
    case Refused => !t.marker && |h| == 4 && h[3].EProposed? && h[3].diagnosis.needsRepair && h[3].diagnosis.mode.None?
                    && t.trace == w.trace
    case Declined => !t.marker && |h| == 4 && h[3].EProposed? && t.trace == w.trace + [Shown(h[3].diagnosis)]
    case NetworkFailed => !t.marker && h != [] && h[|h| - 1] == ENetworkRepairFailed
    case EvidenceRejected => !t.marker && h != [] && h[|h| - 1] == EConfirmed
    case PackagesFailed => !t.marker && h != [] && h[|h| - 1] == EPackagesInstalled(false)
    case VerifyFailed => !t.marker && h != [] && h[|h| - 1] == EPackagesVerified(false)
    case Crashed => true
    case EntryMissing => false
  }

  /** So a report can be relied on, whatever the run met: completion means the marker, a decline that the proposal was
      shown and nothing else was done, and each failure its own last entry and no marker. */
  lemma ReportsMean(bs: seq<Boot>, input: Inputs)
    ensures var w := Boots(FACTORY, bs); Means(w, Run(w, input).action, Run(w, input).w)
  {
    BootTellsExactly(bs, input);
    var w := Boots(FACTORY, bs);
    if !w.marker {
      var h := Load(w.file).history;
      StoryMeans(w, h, input, Run(w, input));
    }
  }

  lemma StoryMeans(w: World, h: seq<Entry>, input: Inputs, t: Step)
    requires OnPath(h) && Coherent(h) && !w.marker
    requires var s := StoryOf(h, input);
             || (LeftBy(w, s, t) && t.w.trace == w.trace + ActsFrom(s, |h|))
             || (t.End? && t.action == Crashed)
    ensures Means(w, t.action, t.w)
  {
    if t.action != Crashed {
      var s := StoryOf(h, input);
      if EndingOf(s).entries == 4 {
        FourAtMost(h, input);
        NoEarlyActs(s, |h|);
      }
      EndingMeans(w, s, t, ActsFrom(s, |h|));
    }
  }

  lemma EndingMeans(w: World, s: Story, t: Step, acts: seq<Act>)
    requires Told(s) && !w.marker && LeftBy(w, s, t) && t.w.trace == w.trace + acts
    requires EndingOf(s).entries == 4 ==> acts == ActsFrom(s, 4)
    ensures Means(w, t.action, t.w)
  {
    var h, n := t.w.file.journal.history, EndingOf(s).entries;
    assert h[n - 1] == s.entries[n - 1];
    assert n == 4 && t.action == Refused ==> acts == [] && w.trace + [] == w.trace;
  }

  lemma FourAtMost(h: seq<Entry>, input: Inputs)
    requires OnPath(h) && Coherent(h) && EndingOf(StoryOf(h, input)).entries == 4
    ensures |h| <= 4
  {
  }

  lemma {:induction false} NoEarlyActs(s: Story, k: nat)
    requires Told(s) && k <= 4
    ensures ActsFrom(s, k) == ActsFrom(s, 4)
    decreases 4 - k
  {
    if k < 4 {
      NoEarlyActs(s, k + 1);
      ActsStep(s, k, []);
    }
  }

  /** A boot that is not cut short is declined exactly when nothing was confirmed before, the proposal could be carried
      out, and CONFIRM is not typed. */
  lemma DeclinedExactly(bs: seq<Boot>, input: Inputs)
    requires input.crash.None? && !Boots(FACTORY, bs).marker
    ensures var w := Boots(FACTORY, bs);
            && Shape(Load(w.file))
            && var h := Load(w.file).history;
               var d := DiagnosisSeen(h, input);
               Run(w, input).action == Declined <==>
                 |h| <= 4 && !(d.needsRepair && d.mode.None?) && !ConfirmTyped(input.lines)
  {
    BootTellsExactly(bs, input);
  }
}
