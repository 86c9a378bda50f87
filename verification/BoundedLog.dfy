/** Event logging that stays bounded per signature, however often a condition repeats. */
module BoundedLog {
  import opened Basics
  import opened Arithmetic

  datatype Sig = Sig(count: nat, firstSeen: int, lastSeen: int, emitted: nat)
  datatype Kind = Occurrence | Repetition | PeriodicSummary
  datatype Rec = Rec(signature: string, kind: Kind, number: nat)
  datatype Summary = Summary(signature: string, firstSeen: int, lastSeen: int, count: nat, examples: nat,
                             suppressed: nat)

  // `order` is the order in which signatures were first seen.
  datatype Log = Log(early: nat, interval: nat, sigs: map<string, Sig>, order: seq<string>, records: seq<Rec>)

  function Empty(early: nat, interval: nat): Log { Log(early, interval, map[], [], []) }

  function Count(log: Log, signature: string): nat {
    if signature in log.sigs then log.sigs[signature].count else 0
  }

  predicate Visible(early: nat, interval: nat, n: nat) { n <= 1 + early || (interval != 0 && n % interval == 0) }

  /** One more occurrence. */
  function Recorded(log: Log, signature: string, now: int): Log {
    var known := signature in log.sigs;
    var before := if known then log.sigs[signature] else Sig(0, now, now, 0);
    var n := before.count + 1;
    var visible := Visible(log.early, log.interval, n);
    var kind := if n == 1 then Occurrence else if n <= 1 + log.early then Repetition else PeriodicSummary;
    var emitted := if visible then before.emitted + 1 else before.emitted;
    log.(sigs := log.sigs[signature := Sig(n, before.firstSeen, now, emitted)],
         order := if known then log.order else log.order + [signature],
         records := if visible then log.records + [Rec(signature, kind, n)] else log.records)
  }

  function RecordedAll(log: Log, events: seq<(string, int)>): Log {
    if events == [] then log
    else Recorded(RecordedAll(log, events[..|events| - 1]), events[|events| - 1].0, events[|events| - 1].1)
  }

  function Occurrences(events: seq<(string, int)>, signature: string): nat {
    if events == [] then 0
    else Occurrences(events[..|events| - 1], signature) + if events[|events| - 1].0 == signature then 1 else 0
  }

  function RecordsOf(records: seq<Rec>, signature: string): nat {
    if records == [] then 0
    else RecordsOf(records[..|records| - 1], signature) + if records[|records| - 1].signature == signature then 1 else 0
  }

  /** How many of the first `n` occurrences leave a record: the first ones, then every `interval`-th. */
  function EmittedAfter(early: nat, interval: nat, n: nat): int {
    Min(n, 1 + early) + if interval > 0 && n > 1 + early then n / interval - (1 + early) / interval else 0
  }

  lemma EmittedStep(early: nat, interval: nat, n: nat)
    ensures EmittedAfter(early, interval, n + 1) ==
            EmittedAfter(early, interval, n) + if Visible(early, interval, n + 1) then 1 else 0
  {
    if interval > 0 { DivisionStep(n, interval); }
  }

  /** How many of the first `n` occurrences are visible, counted one by one. */
  function VisibleUpTo(early: nat, interval: nat, n: nat): nat {
    if n == 0 then 0 else VisibleUpTo(early, interval, n - 1) + if Visible(early, interval, n) then 1 else 0
  }

  lemma {:induction false} VisibleFormula(early: nat, interval: nat, n: nat)
    ensures VisibleUpTo(early, interval, n) == EmittedAfter(early, interval, n) <= n
  {
    if n > 0 {
      VisibleFormula(early, interval, n - 1);
      EmittedStep(early, interval, n - 1);
    }
  }

  lemma {:induction false} CountedForm(early: nat, interval: nat, events: seq<(string, int)>, signature: string)
    ensures var log := RecordedAll(Empty(early, interval), events);
            var n := Occurrences(events, signature);
            && log.early == early && log.interval == interval
            && (signature in log.sigs <==> n > 0)
            && Count(log, signature) == n
            && (n > 0 ==> log.sigs[signature].emitted == VisibleUpTo(early, interval, n))
    decreases |events|
  {
    if events != [] { CountedForm(early, interval, events[..|events| - 1], signature); }
  }

  lemma {:induction false} RecordedForm(early: nat, interval: nat, events: seq<(string, int)>, signature: string)
    ensures RecordsOf(RecordedAll(Empty(early, interval), events).records, signature) ==
            VisibleUpTo(early, interval, Occurrences(events, signature))
    decreases |events|
  {
    if events != [] {
      var init, last := events[..|events| - 1], events[|events| - 1];
      RecordedForm(early, interval, init, signature);
      CountedForm(early, interval, init, signature);
      RecordsOfRecorded(RecordedAll(Empty(early, interval), init), last.0, last.1, signature);
    }
  }

  /** Closed form: after any events, a signature's count is its number of occurrences, and it left exactly the records
      of the formula above, the rest being suppressed. */
  lemma ClosedForm(early: nat, interval: nat, events: seq<(string, int)>, signature: string)
    ensures var log := RecordedAll(Empty(early, interval), events);
            var n := Occurrences(events, signature);
            && (signature in log.sigs <==> n > 0)
            && Count(log, signature) == n
            && (n > 0 ==> log.sigs[signature].emitted == EmittedAfter(early, interval, n) <= n)
            && RecordsOf(log.records, signature) == EmittedAfter(early, interval, n)
  {
    CountedForm(early, interval, events, signature);
    RecordedForm(early, interval, events, signature);
    VisibleFormula(early, interval, Occurrences(events, signature));
  }

  lemma RecordsOfRecorded(log: Log, signature: string, now: int, other: string)
    ensures RecordsOf(Recorded(log, signature, now).records, other) ==
            RecordsOf(log.records, other)
            + if other == signature && Visible(log.early, log.interval, Count(log, signature) + 1) then 1 else 0
  {
    var records' := Recorded(log, signature, now).records;
    if records' != log.records {
      assert records'[..|records'| - 1] == log.records;
    }
  }

  // ----- all signatures together ---------------------------------------------------------------------------------

  function SumEmitted(sigs: map<string, Sig>, order: seq<string>): nat
    requires forall i :: 0 <= i < |order| ==> order[i] in sigs
  {
    if order == [] then 0
    else SumEmitted(sigs, order[..|order| - 1]) + sigs[order[|order| - 1]].emitted
  }

  /** `order` lists the known signatures, each once. */
  predicate Ordered(sigs: map<string, Sig>, order: seq<string>) {
    && (forall i :: 0 <= i < |order| ==> order[i] in sigs)
    && (forall i, j :: 0 <= i < j < |order| ==> order[i] != order[j])
    && (forall s :: s in sigs ==> s in order)
  }

  predicate Valid(log: Log) {
    && Ordered(log.sigs, log.order)
    && |log.records| == SumEmitted(log.sigs, log.order)
    && (forall s :: s in log.sigs ==> log.sigs[s].emitted <= log.sigs[s].count)
  }

  lemma {:induction false} SumUpdated(sigs: map<string, Sig>, order: seq<string>, signature: string, to: Sig)
    requires forall i :: 0 <= i < |order| ==> order[i] in sigs
    requires forall i, j :: 0 <= i < j < |order| ==> order[i] != order[j]
    ensures SumEmitted(sigs[signature := to], order) ==
            if signature in order then SumEmitted(sigs, order) - sigs[signature].emitted + to.emitted
            else SumEmitted(sigs, order)
  {
    if order != [] {
      var init, last := order[..|order| - 1], order[|order| - 1];
      SumUpdated(sigs, init, signature, to);
      assert order == init + [last];
    }
  }

  lemma SumRecorded(sigs: map<string, Sig>, order: seq<string>, signature: string, to: Sig)
    requires Ordered(sigs, order)
    ensures var order' := if signature in sigs then order else order + [signature];
            && Ordered(sigs[signature := to], order')
            && SumEmitted(sigs[signature := to], order') ==
               SumEmitted(sigs, order) + to.emitted - if signature in sigs then sigs[signature].emitted else 0
  {
    RecordedOrdered(sigs, order, signature, to);
    SumUpdated(sigs, order, signature, to);
    if signature !in sigs {
      var order' := order + [signature];
      assert order'[..|order'| - 1] == order && order'[|order'| - 1] == signature;
    }
  }

  lemma EmittedAtMostCounted(sigs: map<string, Sig>, signature: string, to: Sig)
    requires (forall s :: s in sigs ==> sigs[s].emitted <= sigs[s].count) && to.emitted <= to.count
    ensures var sigs' := sigs[signature := to]; forall s :: s in sigs' ==> sigs'[s].emitted <= sigs'[s].count
  {
  }

  lemma ValidWith(log: Log, signature: string, to: Sig, records: seq<Rec>)
    requires Valid(log) && to.emitted <= to.count
    requires |records| == |log.records| + to.emitted - if signature in log.sigs then log.sigs[signature].emitted else 0
    ensures Valid(log.(sigs := log.sigs[signature := to], records := records,
                       order := if signature in log.sigs then log.order else log.order + [signature]))
  {
    SumRecorded(log.sigs, log.order, signature, to);
    var sigs := log.sigs[signature := to];
    var order := if signature in log.sigs then log.order else log.order + [signature];
    assert Ordered(sigs, order) && |records| == SumEmitted(sigs, order);
    EmittedAtMostCounted(log.sigs, signature, to);
  }

  lemma RecordedValid(log: Log, signature: string, now: int)
    requires Valid(log)
    ensures Valid(Recorded(log, signature, now))
  {
    var after := Recorded(log, signature, now);
    ValidWith(log, signature, after.sigs[signature], after.records);
  }

  lemma RecordedOrdered(sigs: map<string, Sig>, order: seq<string>, signature: string, to: Sig)
    requires Ordered(sigs, order)
    ensures Ordered(sigs[signature := to], if signature in sigs then order else order + [signature])
  {
    var order' := if signature in sigs then order else order + [signature];
    forall s | s in sigs[signature := to] ensures s in order' {
      if s != signature {
        var i :| 0 <= i < |order| && order[i] == s;
        assert order'[i] == s;
      } else if signature !in sigs {
        assert order'[|order|] == s;
      }
    }
  }

  /** The number of records ever emitted is the sum over the signatures, whatever the events. */
  lemma {:induction false} TotalIsSum(early: nat, interval: nat, events: seq<(string, int)>)
    ensures Valid(RecordedAll(Empty(early, interval), events))
    decreases |events|
  {
    if events != [] {
      TotalIsSum(early, interval, events[..|events| - 1]);
      RecordedValid(RecordedAll(Empty(early, interval), events[..|events| - 1]), events[|events| - 1].0,
                    events[|events| - 1].1);
    }
  }

  /** What a signature's entry says of when it occurred: first, last, and how often. */
  lemma {:induction false} TimesExactly(early: nat, interval: nat, events: seq<(string, int)>, signature: string)
    ensures var log := RecordedAll(Empty(early, interval), events);
            && (signature in log.sigs <==> Occurrences(events, signature) > 0)
            && (signature in log.sigs ==>
                  && log.sigs[signature].firstSeen == FirstTime(events, signature)
                  && log.sigs[signature].lastSeen == LastTime(events, signature)
                  && log.sigs[signature].count == Occurrences(events, signature))
    decreases |events|
  {
    if events != [] {
      TimesExactly(early, interval, events[..|events| - 1], signature);
    }
  }

  /** What a record of the `n`-th occurrence is called. */
  function KindOf(early: nat, n: nat): Kind {
    if n == 1 then Occurrence else if n <= 1 + early then Repetition else PeriodicSummary
  }

  /** A record stands for an occurrence, by its number: the first ones, and later every `interval`-th, none else. */
  lemma {:induction false} RecordsExactly(early: nat, interval: nat, events: seq<(string, int)>, r: Rec)
    ensures r in RecordedAll(Empty(early, interval), events).records <==>
              && 1 <= r.number <= Occurrences(events, r.signature)
              && (r.number <= 1 + early || (interval > 0 && r.number % interval == 0))
              && r.kind == KindOf(early, r.number)
    decreases |events|
  {
    if events != [] {
      var init, last := events[..|events| - 1], events[|events| - 1];
      RecordsExactly(early, interval, init, r);
      TimesExactly(early, interval, init, last.0);
      KeepsParameters(early, interval, init);
    }
  }

  lemma {:induction false} KeepsParameters(early: nat, interval: nat, events: seq<(string, int)>)
    ensures RecordedAll(Empty(early, interval), events).early == early
    ensures RecordedAll(Empty(early, interval), events).interval == interval
    decreases |events|
  {
    if events != [] { KeepsParameters(early, interval, events[..|events| - 1]); }
  }

  /** When a signature occurred first and last. */
  function FirstTime(events: seq<(string, int)>, signature: string): int {
    if events == [] then 0
    else if Occurrences(events[..|events| - 1], signature) > 0 then FirstTime(events[..|events| - 1], signature)
    else events[|events| - 1].1
  }

  function LastTime(events: seq<(string, int)>, signature: string): int {
    if events == [] then 0
    else if events[|events| - 1].0 == signature then events[|events| - 1].1
    else LastTime(events[..|events| - 1], signature)
  }

  const DEFAULT_EARLY: nat := 3
  const DEFAULT_INTERVAL: nat := 1000

  class BoundedEventLog {
    const early: nat
    const interval: nat
    var sigs: map<string, Sig>
    var order: seq<string>
    var records: seq<Rec>

    constructor (early: nat, interval: nat)
      ensures View() == Empty(early, interval) && Valid(View())
    {
      this.early, this.interval := early, interval;
      sigs, order, records := map[], [], [];
    }

    function View(): Log
      reads this
    { Log(early, interval, sigs, order, records) }

    /** One occurrence; tells whether it left a record. */
    method Record(signature: string, now: int) returns (visible: bool)
      requires Valid(View())
      modifies this
      ensures View() == Recorded(old(View()), signature, now) && Valid(View())
      ensures visible <==> |records| == |old(records)| + 1
    {
      RecordedValid(View(), signature, now);
      visible := Update(signature, now);
    }

    method Update(signature: string, now: int) returns (visible: bool)
      modifies this
      ensures View() == Recorded(old(View()), signature, now)
      ensures visible <==> |records| == |old(records)| + 1
    {
      var st := Sig(0, now, now, 0);
      if signature in sigs {
        st := sigs[signature];
      } else {
        order := order + [signature];
      }
      st := st.(count := st.count + 1, lastSeen := now);
      visible := false;
      if st.count <= 1 + early {
        records := records + [Rec(signature, if st.count == 1 then Occurrence else Repetition, st.count)];
        st := st.(emitted := st.emitted + 1);
        visible := true;
      } else if interval != 0 && st.count % interval == 0 {
        records := records + [Rec(signature, PeriodicSummary, st.count)];
        st := st.(emitted := st.emitted + 1);
        visible := true;
      }
      sigs := sigs[signature := st];
    }

    /** One summary per signature, in the order first seen; what was not emitted is what was suppressed. */
    method Finalize() returns (summaries: seq<Summary>)
      requires Valid(View())
      ensures |summaries| == |order|
      ensures forall i :: 0 <= i < |order| ==>
                var st := sigs[order[i]];
                && summaries[i].signature == order[i]
                && summaries[i].firstSeen == st.firstSeen && summaries[i].lastSeen == st.lastSeen
                && summaries[i].count == st.count
                && summaries[i].suppressed + st.emitted == st.count
                && summaries[i].examples == Min(1 + early, st.count)
    {
      summaries := [];
      var i := 0;
      while i < |order|
        invariant 0 <= i <= |order| && |summaries| == i
        invariant forall k :: 0 <= k < i ==>
                    var st := sigs[order[k]];
                    && summaries[k].signature == order[k]
                    && summaries[k].firstSeen == st.firstSeen && summaries[k].lastSeen == st.lastSeen
                    && summaries[k].count == st.count
                    && summaries[k].suppressed + st.emitted == st.count
                    && summaries[k].examples == Min(1 + early, st.count)
      {
        var st := sigs[order[i]];
        summaries := summaries + [Summary(order[i], st.firstSeen, st.lastSeen, st.count, Min(1 + early, st.count),
                                          Max(0, st.count - st.emitted))];
        i := i + 1;
      }
    }
  }
}
