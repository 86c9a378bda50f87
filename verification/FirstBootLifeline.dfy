/** The facts of the lifeline check, and when judging them healthy means that the network was seen to work. */
module FirstBootLifeline {
  import opened Basics
  import opened FirstBootModel
  import P = FirstBootProgress

  /** The facts, in the order in which they are tried. */
  const NAMES: seq<string> :=
    ["nic_detected", "driver_bound", "carrier_present", "address_assigned", "gateway_reachable", "dns_functioning",
     "internet_reachable", "llm_provider_reachable"]

  /** Facts tried in order, when `ok` says how each would turn out: the first failure is the last one tried. */
  function Tried(names: seq<string>, ok: seq<bool>): (facts: seq<Fact>)
    requires |names| == |ok|
    ensures |facts| <= |ok| && (ok != [] ==> facts != [])
  {
    if names == [] then []
    else [Fact(names[0], Some(ok[0]))] + if ok[0] then Tried(names[1..], ok[1..]) else []
  }

  /** `check_lifeline`. */
  function CheckLifeline(ok: seq<bool>): seq<Fact>
    requires |ok| == |NAMES|
  { Tried(NAMES, ok) }

  /** Both facts that decide were observed, and true. */
  predicate Observed(facts: seq<Fact>) {
    Fact("address_assigned", Some(true)) in facts && Fact("gateway_reachable", Some(true)) in facts
  }

  /** The check ended with a missing card, driver or carrier, so nothing was learnt about address and gateway. */
  predicate StoppedEarly(facts: seq<Fact>) {
    facts != [] && facts[|facts| - 1] in {Fact("nic_detected", Some(false)), Fact("driver_bound", Some(false)),
                                          Fact("carrier_present", Some(false))}
  }

  // ----- facts tried in order ------------------------------------------------------------------------------------

  lemma {:induction false} TriedAt(names: seq<string>, ok: seq<bool>, i: nat)
    requires |names| == |ok| && i < |Tried(names, ok)|
    ensures Tried(names, ok)[i] == Fact(names[i], Some(ok[i]))
    ensures i + 1 < |Tried(names, ok)| ==> ok[i]
    ensures i + 1 == |Tried(names, ok)| < |ok| ==> !ok[i]
  {
    if i > 0 { TriedAt(names[1..], ok[1..], i - 1); }
  }

  predicate Distinct(names: seq<string>) { forall i, j :: 0 <= i < j < |names| ==> names[i] != names[j] }

  /** What the evidence reads for one name: its fact, or true when the check never came to it. */
  lemma {:induction false} FactRead(facts: seq<Fact>, names: seq<string>, ok: seq<bool>, i: nat)
    requires |facts| <= |names| == |ok| && i < |names| && Distinct(names)
    requires forall j :: 0 <= j < |facts| ==> facts[j] == Fact(names[j], Some(ok[j]))
    ensures FactHolds(facts, names[i]) <==> (i < |facts| ==> ok[i])
    ensures Fact(names[i], Some(true)) in facts <==> i < |facts| && ok[i]
  {
    if facts == [] { return; }
    var n := |facts| - 1;
    FactRead(facts[..n], names, ok, i);
    assert facts == facts[..n] + [facts[n]];
  }

  /** The facts from `first` on decide: the lifeline holds exactly when they were observed true or never tried. */
  lemma TriedDecides(names: seq<string>, ok: seq<bool>, i: nat)
    requires |names| == |ok| && i < |names| && Distinct(names)
    ensures FactHolds(Tried(names, ok), names[i]) <==> (i < |Tried(names, ok)| ==> ok[i])
    ensures Fact(names[i], Some(true)) in Tried(names, ok) <==> i < |Tried(names, ok)| && ok[i]
  {
    forall j | 0 <= j < |Tried(names, ok)| ensures Tried(names, ok)[j] == Fact(names[j], Some(ok[j])) {
      TriedAt(names, ok, j);
    }
    FactRead(Tried(names, ok), names, ok, i);
  }

  // ----- the eight facts -----------------------------------------------------------------------------------------

  lemma NamesDistinct()
    ensures Distinct(NAMES) && |NAMES| == 8 && NAMES[3] == "address_assigned" && NAMES[4] == "gateway_reachable"
    ensures NAMES[0] == "nic_detected" && NAMES[1] == "driver_bound" && NAMES[2] == "carrier_present"
  {
    assert |NAMES[0]| == 12 && |NAMES[1]| == 12 && |NAMES[2]| == 15 && |NAMES[3]| == 16 && |NAMES[4]| == 17;
    assert |NAMES[5]| == 15 && |NAMES[6]| == 18 && |NAMES[7]| == 22;
    assert NAMES[0][0] == 'n' && NAMES[1][0] == 'd' && NAMES[2][0] == 'c' && NAMES[5][0] == 'd';
  }

  /** A lifeline is judged healthy exactly when address and gateway were both observed to be there, or the check ended
      before it came to them. */
  lemma {:induction false} HealthyExactly(ok: seq<bool>)
    requires |ok| == |NAMES|
    ensures Lifeline(CheckLifeline(ok)) <==> Observed(CheckLifeline(ok)) || StoppedEarly(CheckLifeline(ok))
    ensures !(Observed(CheckLifeline(ok)) && StoppedEarly(CheckLifeline(ok)))
  {
    NamesDistinct();
    var n := |CheckLifeline(ok)|;
    TriedDecides(NAMES, ok, 3);
    TriedDecides(NAMES, ok, 4);
    EarlyExactly(NAMES, ok);
    if n > 3 { TriedAt(NAMES, ok, 3); }
  }

  /** The last fact tried is a failure of one of the first three exactly when at most three were tried. */
  lemma EarlyExactly(names: seq<string>, ok: seq<bool>)
    requires |names| == |ok| == 8 && Distinct(names)
    requires names[0] == "nic_detected" && names[1] == "driver_bound" && names[2] == "carrier_present"
    ensures StoppedEarly(Tried(names, ok)) <==> |Tried(names, ok)| <= 3
  {
    var n := |Tried(names, ok)| - 1;
    TriedAt(names, ok, n);
    if n > 2 { assert names[0] != names[n] && names[1] != names[n] && names[2] != names[n]; }
  }

  /** So "healthy means observed" holds exactly of the checks that did not end early. */
  lemma {:induction false} HealthyMeansObservedExactly(ok: seq<bool>)
    requires |ok| == |NAMES|
    ensures (Lifeline(CheckLifeline(ok)) ==> Observed(CheckLifeline(ok))) <==> !StoppedEarly(CheckLifeline(ok))
  {
    HealthyExactly(ok);
  }

  const NO_CARD: seq<Fact> := [Fact("nic_detected", Some(false))]

  /** A machine without a network card has a healthy lifeline, which is genuine evidence for any named interface. */
  lemma {:induction false} NoCardIsHealthy(ok: seq<bool>, target: string)
    requires |ok| == |NAMES| && !ok[0] && target != ""
    ensures CheckLifeline(ok) == NO_CARD && Lifeline(NO_CARD) && !Observed(NO_CARD)
    ensures Genuine(target, FactsEvidence(NO_CARD))
  {
    NamesDistinct();
    TriedAt(NAMES, ok, 0);
    assert CheckLifeline(ok) == NO_CARD;
    EarlyExactly(NAMES, ok);
    HealthyExactly(ok);
    P.HealthyFactsAreEvidence(NO_CARD, target);
  }

  /** Its first boot reaches completion if some default route names a device and everything else goes well, though the
      network was never seen to work. */
  lemma NoCardCommits(input: Inputs)
    requires input.facts == NO_CARD && input.crash.None? && input.observed != ""
    requires ConfirmTyped(input.lines) && input.installOk && input.verifyOk
    ensures Run(FACTORY, input).w.marker
  {
    NoCardIsHealthy(seq(8, _ => false), input.observed);
    assert Boots(FACTORY, []) == FACTORY;
    P.BootCommitsExactly([], input);
  }
}
