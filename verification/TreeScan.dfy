/** Scanning a whole tree under one budget, and joining the results of several scans. */
module TreeScan {
  import opened Basics
  import opened Bytes
  import opened Utf8
  import opened BoundedLog
  import opened Scanner

  // The logical size and the onDisk size that `stat` reports.
  datatype Stat = Stat(logical: nat, onDisk: nat)
  datatype Candidate = Candidate(path: string, stat: Option<Stat>, file: File)

  datatype Status = Findings | Incomplete | Clean | NotInScope
  datatype Reason = CapAndBudget | BudgetExhausted | CapExceeded
  datatype Stats = Stats(candidates: nat, logical: nat, onDisk: nat, bytesRead: nat,
                         fullyScanned: nat, excluded: nat, incomplete: nat, sparse: nat)
  datatype Result = Result(findings: seq<string>, scanIncomplete: bool, reason: Option<Reason>, stats: Stats,
                           status: Status)

  /** Findings win over an incomplete scan, and an incomplete scan is never clean. */
  function Finalize(findings: seq<string>, scanIncomplete: bool): Status {
    if findings != [] then Findings else if scanIncomplete then Incomplete else Clean
  }

  predicate Owned(c: Candidate) { c.path in OWNERSHIP_METADATA_FILES }

  /** The bytes that can be read of the files among the first `k` that are looked at and do not fail. */
  function ReadableBytes(cs: seq<Candidate>, k: nat): nat
    requires k <= |cs|
  {
    if k == 0 then 0
    else
      var c := cs[k - 1];
      ReadableBytes(cs, k - 1) + if Owned(c) || c.stat.None? || Broken(c.file) then 0 else |Content(c.file)|
  }

  /** What the `i`-th candidate is allowed to read, if no candidate before it has shown a term or met a limit. */
  function Allowance(cs: seq<Candidate>, i: nat, budget: nat): int
    requires i < |cs|
  { Min(MAX_SCAN_BYTES_PER_FILE, budget - ReadableBytes(cs, i)) }

  /** What can be read stays under the limit and shows no term. */
  predicate Silent(f: File, denylist: seq<Term>, limit: int) {
    |Part(f)| < limit && !Seen(f.chunks, Reads(f), denylist, Overlap(denylist))
  }

  /** The `i`-th candidate leaves the scan clean: its name is excluded; or the budget is not used up before it, and it
      has no status or shows no term in what can be read of it, which stays under its allowance. */
  predicate Passes(cs: seq<Candidate>, i: nat, denylist: seq<Term>, budget: nat)
    requires i < |cs|
  {
    Owned(cs[i])
    || (ReadableBytes(cs, i) < budget
        && (cs[i].stat.None?
            || Silent(cs[i].file, denylist, Allowance(cs, i, budget))))
  }

  /** What a complete scan says of a candidate it does not report: it was not looked at, or no term that fits the
      carried tail is in what can be read of it. */
  predicate Cleared(c: Candidate, denylist: seq<Term>) {
    Owned(c) || c.stat.None? || !FitHit(denylist, Part(c.file), Overlap(denylist))
  }

  /** A reported path belongs to a candidate that shows a term; if its content is text, it holds the term. */
  predicate Justified(path: string, cs: seq<Candidate>, denylist: seq<Term>) {
    exists i :: 0 <= i < |cs| && JustifiedAt(path, cs[i], denylist)
  }

  predicate JustifiedAt(path: string, c: Candidate, denylist: seq<Term>) {
    && c.path == path && !Owned(c) && c.stat.Some?
    && Seen(c.file.chunks, Reads(c.file), denylist, Overlap(denylist))
    && (WellFormed(Content(c.file)) ==> ByteHit(denylist, Part(c.file)))
  }

  // ----- what a scan reads and finds -----------------------------------------------------------------------------

  // What becomes of a candidate: excluded by name, met after the budget was used up, without status, or read: so many
  // bytes, with or without showing a term, or up to its allowance without showing one.
  datatype Verdict = Excluded | OverBudget | NoStatus | Read(bytes: nat, shows: bool, capped: bool)

  /** The first of `n` windows that shows a term, or `n`. */
  function FirstSight(chunks: seq<seq<Byte>>, n: nat, denylist: seq<Term>): (k: nat)
    requires n <= |chunks|
    ensures k <= n && !Seen(chunks, k, denylist, Overlap(denylist))
    ensures k < n <==> Seen(chunks, n, denylist, Overlap(denylist))
    ensures k < n ==> Hit(denylist, Decode(WindowAt(chunks, k, Overlap(denylist))))
  {
    if n == 0 then 0
    else
      var k := FirstSight(chunks, n - 1, denylist);
      if k < n - 1 || Hit(denylist, Decode(WindowAt(chunks, n - 1, Overlap(denylist)))) then k else n
  }

  /** Reading a file until a term shows, the limit is met, the file ends, or a read fails, which counts for nothing. */
  function ReadUnder(f: File, denylist: seq<Term>, limit: nat): Verdict {
    var n := Reach(f, limit, 0);
    var k := FirstSight(f.chunks, n, denylist);
    if k < n then Read(|Joined(f.chunks, k + 1)|, true, false)
    else if |Part(f)| >= limit then Read(|Joined(f.chunks, n)|, false, true)
    else Read(if Broken(f) then 0 else |Content(f)|, false, false)
  }

  function VerdictOn(c: Candidate, used: nat, denylist: seq<Term>, budget: nat): Verdict {
    if Owned(c) then Excluded
    else if used >= budget then OverBudget
    else if c.stat.None? then NoStatus
    else ReadUnder(c.file, denylist, Min(MAX_SCAN_BYTES_PER_FILE, budget - used))
  }

  predicate Caught(v: Verdict) { v.Read? && v.shows }

  predicate CutShort(v: Verdict) { v.OverBudget? || (v.Read? && v.capped) }

  predicate Sparse(s: Stat) { s.logical > 0 && s.onDisk < s.logical - 4096 }

  // What a scan has so far: the paths of the candidates that showed a term, in order, its counters, and how many
  // candidates were met after the budget was used up.
  datatype Scan = Scan(findings: seq<string>, stats: Stats, skipped: nat)

  /** One more candidate counted. */
  function Counted(t: Stats, c: Candidate, v: Verdict): Stats {
    if !v.Read? then t.(excluded := t.excluded + 1)
    else if c.stat.None? then t
    else
      Stats(t.candidates, t.logical + c.stat.value.logical, t.onDisk + c.stat.value.onDisk, t.bytesRead + v.bytes,
            t.fullyScanned + (if v.capped then 0 else 1), t.excluded, t.incomplete + (if v.capped then 1 else 0),
            t.sparse + if Sparse(c.stat.value) then 1 else 0)
  }

  function With(s: Scan, c: Candidate, v: Verdict): Scan {
    Scan(s.findings + (if Caught(v) then [c.path] else []), Counted(s.stats, c, v),
         s.skipped + if v.OverBudget? then 1 else 0)
  }

  function Begin(cs: seq<Candidate>): Scan { Scan([], Stats(|cs|, 0, 0, 0, 0, 0, 0, 0), 0) }

  /** The scan after the first `k` candidates, each judged after what was really read of all before it. */
  function ScanTo(cs: seq<Candidate>, k: nat, denylist: seq<Term>, budget: nat): Scan
    requires k <= |cs|
  {
    if k == 0 then Begin(cs)
    else
      var s := ScanTo(cs, k - 1, denylist, budget);
      With(s, cs[k - 1], VerdictOn(cs[k - 1], s.stats.bytesRead, denylist, budget))
  }

  /** The bytes really read of the first `k` candidates. */
  function Used(cs: seq<Candidate>, k: nat, denylist: seq<Term>, budget: nat): nat
    requires k <= |cs|
  { ScanTo(cs, k, denylist, budget).stats.bytesRead }

  function VerdictAt(cs: seq<Candidate>, i: nat, denylist: seq<Term>, budget: nat): Verdict
    requires i < |cs|
  { VerdictOn(cs[i], Used(cs, i, denylist, budget), denylist, budget) }

  function CaughtPaths(cs: seq<Candidate>, k: nat, denylist: seq<Term>, budget: nat): seq<string>
    requires k <= |cs|
  { ScanTo(cs, k, denylist, budget).findings }

  function Skipped(cs: seq<Candidate>, k: nat, denylist: seq<Term>, budget: nat): nat
    requires k <= |cs|
  { ScanTo(cs, k, denylist, budget).skipped }

  function Tally(cs: seq<Candidate>, k: nat, denylist: seq<Term>, budget: nat): Stats
    requires k <= |cs|
  { ScanTo(cs, k, denylist, budget).stats }

  lemma VerdictReads(c: Candidate, used: nat, denylist: seq<Term>, budget: nat)
    ensures VerdictOn(c, used, denylist, budget).Read? ==> c.stat.Some?
  {
  }

  /** One candidate, after `used` bytes were read of those before it. */
  method ScanCandidate(c: Candidate, used: nat, denylist: seq<Term>, budget: nat, log: BoundedEventLog, now: int)
    returns (v: Verdict)
    requires ValidFile(c.file) && Valid(log.View())
    modifies log
    ensures v == VerdictOn(c, used, denylist, budget)
    ensures Valid(log.View())
    ensures Count(log.View(), SKIPPED) == old(Count(log.View(), SKIPPED)) + if v.OverBudget? then 1 else 0
    ensures v.Read? ==> c.stat.Some? && used + v.bytes < budget + CHUNK_BYTES
  {
    if c.path in OWNERSHIP_METADATA_FILES { return Excluded; }
    if used >= budget {
      var _ := log.Record(SKIPPED, now);
      return OverBudget;
    }
    if c.stat.None? { return NoStatus; }
    var allowance := Min(MAX_SCAN_BYTES_PER_FILE, budget - used);
    var matched, scanned, capped := FileContainsAnyTerm(c.file, denylist, allowance, log, now);
    ghost var n := Reach(c.file, allowance, 0);
    if matched {
      ghost var k :| 0 <= k < n && FoundAt(c.file.chunks, k, denylist, scanned);
      FirstIs(c.file.chunks, n, denylist, k);
    }
    v := Read(scanned, matched, capped);
  }

  lemma {:induction false} FirstIs(chunks: seq<seq<Byte>>, n: nat, denylist: seq<Term>, k: nat)
    requires k < n <= |chunks| && !Seen(chunks, k, denylist, Overlap(denylist))
    requires Hit(denylist, Decode(WindowAt(chunks, k, Overlap(denylist))))
    ensures FirstSight(chunks, n, denylist) == k
  {
    if k < n - 1 { FirstIs(chunks, n - 1, denylist, k); }
  }

  /** The same scan from the verdicts, once they are known. */
  function ScanOf(cs: seq<Candidate>, all: seq<Verdict>, k: nat): Scan
    requires k <= |cs| == |all|
  { if k == 0 then Begin(cs) else With(ScanOf(cs, all, k - 1), cs[k - 1], all[k - 1]) }

  predicate Turn(k: int) { true }

  /** `all` are the verdicts of a scan; what that means for one candidate is looked up only when it is its turn. */
  predicate Judges(cs: seq<Candidate>, all: seq<Verdict>, denylist: seq<Term>, budget: nat) {
    && |all| == |cs|
    && forall k {:trigger Turn(k)} :: Turn(k) && 0 <= k < |cs| ==>
         all[k] == VerdictOn(cs[k], ScanOf(cs, all, k).stats.bytesRead, denylist, budget)
  }

  /** The next candidate. */
  method ScanNext(cs: seq<Candidate>, k: nat, ghost all: seq<Verdict>, used: nat, denylist: seq<Term>, budget: nat,
                  log: BoundedEventLog, now: int)
    returns (v: Verdict)
    requires k < |cs| == |all| && ValidFile(cs[k].file) && Valid(log.View())
    requires Judges(cs, all, denylist, budget) && used == ScanOf(cs, all, k).stats.bytesRead
    modifies log
    ensures v == all[k] && Valid(log.View())
    ensures Count(log.View(), SKIPPED) == old(Count(log.View(), SKIPPED)) + if v.OverBudget? then 1 else 0
    ensures v.Read? ==> cs[k].stat.Some? && used + v.bytes < budget + CHUNK_BYTES
  {
    v := ScanCandidate(cs[k], used, denylist, budget, log, now);
    assert Turn(k);
  }

  lemma VerdictsExist(cs: seq<Candidate>, denylist: seq<Term>, budget: nat) returns (all: seq<Verdict>)
    ensures Judges(cs, all, denylist, budget)
  {
    all := seq(|cs|, i requires 0 <= i < |cs| => VerdictAt(cs, i, denylist, budget));
    forall k | 0 <= k < |cs| ensures ScanOf(cs, all, k) == ScanTo(cs, k, denylist, budget) {
      SameScan(cs, all, k, denylist, budget);
    }
  }

  lemma {:induction false} SameScan(cs: seq<Candidate>, all: seq<Verdict>, k: nat, denylist: seq<Term>, budget: nat)
    requires k <= |cs| == |all| && forall i :: 0 <= i < |cs| ==> all[i] == VerdictAt(cs, i, denylist, budget)
    ensures ScanOf(cs, all, k) == ScanTo(cs, k, denylist, budget)
  {
    if k > 0 { SameScan(cs, all, k - 1, denylist, budget); }
  }

  lemma {:induction false} JudgedScan(cs: seq<Candidate>, all: seq<Verdict>, k: nat, denylist: seq<Term>, budget: nat)
    requires Judges(cs, all, denylist, budget) && k <= |cs|
    ensures ScanOf(cs, all, k) == ScanTo(cs, k, denylist, budget)
  {
    if k > 0 {
      JudgedScan(cs, all, k - 1, denylist, budget);
      assert Turn(k - 1);
    }
  }

  lemma StepTo(cs: seq<Candidate>, k: nat, denylist: seq<Term>, budget: nat)
    requires k < |cs|
    ensures var v := VerdictAt(cs, k, denylist, budget);
            && ScanTo(cs, k + 1, denylist, budget) == With(ScanTo(cs, k, denylist, budget), cs[k], v)
            && (v.Read? ==> cs[k].stat.Some?)
  {
    VerdictReads(cs[k], Used(cs, k, denylist, budget), denylist, budget);
  }

  /** The counters after one more candidate. */
  method AddToStats(stats: Stats, c: Candidate, v: Verdict) returns (after: Stats)
    requires v.Read? ==> c.stat.Some?
    ensures after == Counted(stats, c, v)
  {
    if !v.Read? { return stats.(excluded := stats.excluded + 1); }
    var stat := c.stat.value;
    after := stats.(logical := stats.logical + stat.logical, onDisk := stats.onDisk + stat.onDisk);
    if stat.logical > 0 && stat.onDisk < stat.logical - 4096 { after := after.(sparse := after.sparse + 1); }
    after := after.(bytesRead := after.bytesRead + v.bytes);
    if v.capped {
      after := after.(incomplete := after.incomplete + 1);
    } else {
      after := after.(fullyScanned := after.fullyScanned + 1);
    }
  }

  /** What every scan keeps: each candidate is counted once, and it is incomplete when something was cut short. */
  predicate Adds(s: Scan, k: nat, incomplete: bool) {
    && s.stats.fullyScanned + s.stats.incomplete + s.stats.excluded == k
    && s.skipped <= s.stats.excluded
    && (incomplete <==> s.stats.incomplete > 0 || s.skipped > 0)
  }

  lemma OneMore(s: Scan, k: nat, incomplete: bool, c: Candidate, v: Verdict)
    requires Adds(s, k, incomplete) && (v.Read? ==> c.stat.Some?)
    ensures Adds(With(s, c, v), k + 1, incomplete || CutShort(v))
    ensures With(s, c, v).stats.bytesRead == s.stats.bytesRead + if v.Read? then v.bytes else 0
  {
  }

  /** Reads the candidates one after another, complete or not: exactly those that show a term are reported, in order,
      and everything is counted as it was read. */
  method ReadTree(cs: seq<Candidate>, denylist: seq<Term>, budget: nat, now: int)
    returns (findings: seq<string>, stats: Stats, skipped: nat, incomplete: bool)
    requires forall i :: 0 <= i < |cs| ==> ValidFile(cs[i].file)
    ensures Scan(findings, stats, skipped) == ScanTo(cs, |cs|, denylist, budget)
    ensures Adds(Scan(findings, stats, skipped), |cs|, incomplete)
    ensures stats.bytesRead < budget + CHUNK_BYTES
  {
    var log := new BoundedEventLog(DEFAULT_EARLY, DEFAULT_INTERVAL);
    findings, incomplete, stats, skipped := [], false, Stats(|cs|, 0, 0, 0, 0, 0, 0, 0), 0;
    var k := 0;
    ghost var all := VerdictsExist(cs, denylist, budget);
    while k < |cs|
      invariant 0 <= k <= |cs| && fresh(log) && Valid(log.View())
      invariant Scan(findings, stats, skipped) == ScanOf(cs, all, k)
      invariant Adds(Scan(findings, stats, skipped), k, incomplete)
      invariant skipped == Count(log.View(), SKIPPED) && stats.bytesRead < budget + CHUNK_BYTES
    {
      var v := ScanNext(cs, k, all, stats.bytesRead, denylist, budget, log, now);
      OneMore(Scan(findings, stats, skipped), k, incomplete, cs[k], v);
      stats := AddToStats(stats, cs[k], v);
      if CutShort(v) { incomplete := true; }
      if Caught(v) { findings := findings + [cs[k].path]; }
      skipped, k := Count(log.View(), SKIPPED), k + 1;
    }
    JudgedScan(cs, all, |cs|, denylist, budget);
  }

  /** The whole outcome of a scan. */
  method ScanTree(cs: seq<Candidate>, denylist: seq<Term>, budget: nat, now: int) returns (r: Result)
    requires forall i :: 0 <= i < |cs| ==> ValidFile(cs[i].file)
    ensures r.findings == CaughtPaths(cs, |cs|, denylist, budget)
    ensures r.stats == Tally(cs, |cs|, denylist, budget)
    ensures r.scanIncomplete <==> r.stats.incomplete > 0 || Skipped(cs, |cs|, denylist, budget) > 0
    ensures r.reason == if !r.scanIncomplete then None
                        else if r.stats.incomplete == 0 then Some(BudgetExhausted)
                        else if Skipped(cs, |cs|, denylist, budget) == 0 then Some(CapExceeded)
                        else Some(CapAndBudget)
    ensures r.status == if r.findings != [] then Findings else if r.scanIncomplete then Incomplete else Clean
    ensures r.stats.bytesRead == Used(cs, |cs|, denylist, budget) < budget + CHUNK_BYTES
    ensures r.stats.fullyScanned + r.stats.incomplete + r.stats.excluded == |cs|
    // so every finding is justified, and a complete scan reports or clears every candidate
    ensures AllJustified(r.findings, cs, denylist)
    ensures !r.scanIncomplete ==> AllCleared(cs, |cs|, r.findings, denylist)
    // it is clean exactly when all pass, and has then read all that can be read
    ensures r.status == Clean <==> AllPass(cs, |cs|, denylist, budget)
    ensures r.status == Clean ==> r.stats.bytesRead == ReadableBytes(cs, |cs|)
  {
    var findings, stats, skipped, incomplete := ReadTree(cs, denylist, budget, now);
    var reason := if stats.incomplete > 0 && stats.excluded > 0 && skipped > 0 then Some(CapAndBudget)
                  else if skipped > 0 then Some(BudgetExhausted)
                  else if stats.incomplete > 0 then Some(CapExceeded)
                  else None;
    r := Result(findings, incomplete, reason, stats, Finalize(findings, incomplete));
    FindingsJustified(cs, |cs|, denylist, budget);
    CleanPasses(cs, |cs|, denylist, budget);
    if !incomplete { CompleteClears(cs, |cs|, denylist, budget); }
  }

  // ----- what that says of the candidates ------------------------------------------------------------------------

  lemma ReadMeans(c: Candidate, denylist: seq<Term>, limit: nat)
    requires !Owned(c) && c.stat.Some?
    ensures var v := ReadUnder(c.file, denylist, limit);
            && v.Read?
            && (v.shows <==> Seen(c.file.chunks, Reach(c.file, limit, 0), denylist, Overlap(denylist)))
            && (v.shows ==> JustifiedAt(c.path, c, denylist))
            && (!v.shows && !v.capped <==> Silent(c.file, denylist, limit))
            && (!v.shows && !v.capped ==>
                  Cleared(c, denylist) && v.bytes == if Broken(c.file) then 0 else |Content(c.file)|)
  {
    ReachesCap(c.file, limit);
    if Seen(c.file.chunks, Reads(c.file), denylist, Overlap(denylist)) {
      if WellFormed(Content(c.file)) { SeenIsReal(c.file.chunks, Reads(c.file), denylist, Overlap(denylist)); }
    } else if FitHit(denylist, Part(c.file), Overlap(denylist)) {
      FitIsSeen(c.file.chunks, Reads(c.file), denylist, Overlap(denylist));
    }
  }

  /** All of the first `k` candidates leave the scan clean. */
  predicate AllPass(cs: seq<Candidate>, k: nat, denylist: seq<Term>, budget: nat)
    requires k <= |cs|
  { k == 0 || (AllPass(cs, k - 1, denylist, budget) && Passes(cs, k - 1, denylist, budget)) }

  /** Every finding is justified. */
  predicate AllJustified(findings: seq<string>, cs: seq<Candidate>, denylist: seq<Term>) {
    findings == []
    || (Justified(findings[|findings| - 1], cs, denylist) && AllJustified(findings[..|findings| - 1], cs, denylist))
  }

  /** All of the first `k` candidates are reported or cleared. */
  predicate AllCleared(cs: seq<Candidate>, k: nat, findings: seq<string>, denylist: seq<Term>)
    requires k <= |cs|
  {
    k == 0
    || (AllCleared(cs, k - 1, findings, denylist)
        && (cs[k - 1].path in findings || Cleared(cs[k - 1], denylist)))
  }

  lemma {:induction false} StillCleared(cs: seq<Candidate>, k: nat, findings: seq<string>, path: string,
                                        denylist: seq<Term>)
    requires k <= |cs| && AllCleared(cs, k, findings, denylist)
    ensures AllCleared(cs, k, findings + [path], denylist)
  {
    if k > 0 { StillCleared(cs, k - 1, findings, path, denylist); }
  }

  lemma OneMoreFinding(cs: seq<Candidate>, k: nat, findings: seq<string>, denylist: seq<Term>)
    requires k < |cs| && JustifiedAt(cs[k].path, cs[k], denylist) && AllJustified(findings, cs, denylist)
    ensures AllJustified(findings + [cs[k].path], cs, denylist)
    ensures AllCleared(cs, k, findings, denylist) ==> AllCleared(cs, k + 1, findings + [cs[k].path], denylist)
  {
    assert (findings + [cs[k].path])[..|findings|] == findings;
    if AllCleared(cs, k, findings, denylist) { StillCleared(cs, k, findings, cs[k].path, denylist); }
  }

  /** Every finding of a scan is justified. */
  lemma {:induction false} FindingsJustified(cs: seq<Candidate>, k: nat, denylist: seq<Term>, budget: nat)
    requires k <= |cs|
    ensures AllJustified(CaughtPaths(cs, k, denylist, budget), cs, denylist)
  {
    if k > 0 {
      FindingsJustified(cs, k - 1, denylist, budget);
      StepTo(cs, k - 1, denylist, budget);
      var before, v := CaughtPaths(cs, k - 1, denylist, budget), VerdictAt(cs, k - 1, denylist, budget);
      if Caught(v) {
        ReadMeans(cs[k - 1], denylist, Min(MAX_SCAN_BYTES_PER_FILE, budget - Used(cs, k - 1, denylist, budget)));
        OneMoreFinding(cs, k - 1, before, denylist);
      } else {
        assert before + [] == before;
      }
    }
  }

  /** None of the first `k` candidates was cut short. */
  predicate Uncut(cs: seq<Candidate>, k: nat, denylist: seq<Term>, budget: nat)
    requires k <= |cs|
  { Tally(cs, k, denylist, budget).incomplete == 0 && Skipped(cs, k, denylist, budget) == 0 }

  lemma UncutStep(cs: seq<Candidate>, k: nat, denylist: seq<Term>, budget: nat)
    requires k < |cs|
    ensures Uncut(cs, k + 1, denylist, budget)
            <==> Uncut(cs, k, denylist, budget) && !CutShort(VerdictAt(cs, k, denylist, budget))
  {
    StepTo(cs, k, denylist, budget);
  }

  /** A complete scan reports or clears every candidate. */
  lemma {:induction false} CompleteClears(cs: seq<Candidate>, k: nat, denylist: seq<Term>, budget: nat)
    requires k <= |cs| && Uncut(cs, k, denylist, budget)
    ensures AllCleared(cs, k, CaughtPaths(cs, k, denylist, budget), denylist)
  {
    if k > 0 {
      UncutStep(cs, k - 1, denylist, budget);
      CompleteClears(cs, k - 1, denylist, budget);
      StepTo(cs, k - 1, denylist, budget);
      var before, v := CaughtPaths(cs, k - 1, denylist, budget), VerdictAt(cs, k - 1, denylist, budget);
      if v.Read? {
        ReadMeans(cs[k - 1], denylist, Min(MAX_SCAN_BYTES_PER_FILE, budget - Used(cs, k - 1, denylist, budget)));
      }
      if Caught(v) {
        StillCleared(cs, k - 1, before, cs[k - 1].path, denylist);
      } else {
        assert before + [] == before;
      }
    }
  }

  /** Nothing found and nothing cut short: that is, all candidates pass; and then all that can be read was read. */
  lemma {:induction false} CleanPasses(cs: seq<Candidate>, k: nat, denylist: seq<Term>, budget: nat)
    requires k <= |cs|
    ensures CaughtPaths(cs, k, denylist, budget) == [] && Uncut(cs, k, denylist, budget)
            <==> AllPass(cs, k, denylist, budget)
    ensures AllPass(cs, k, denylist, budget) ==> Used(cs, k, denylist, budget) == ReadableBytes(cs, k)
  {
    if k > 0 {
      CleanPasses(cs, k - 1, denylist, budget);
      StepTo(cs, k - 1, denylist, budget);
      UncutStep(cs, k - 1, denylist, budget);
      if AllPass(cs, k - 1, denylist, budget) { PassStep(cs, k - 1, denylist, budget); }
    }
  }

  lemma PassStep(cs: seq<Candidate>, i: nat, denylist: seq<Term>, budget: nat)
    requires i < |cs| && Used(cs, i, denylist, budget) == ReadableBytes(cs, i)
    ensures var v := VerdictAt(cs, i, denylist, budget);
            && (Passes(cs, i, denylist, budget) <==> !Caught(v) && !CutShort(v))
            && (Passes(cs, i, denylist, budget) ==>
                  ReadableBytes(cs, i + 1) == ReadableBytes(cs, i) + if v.Read? then v.bytes else 0)
  {
    PassOn(cs[i], ReadableBytes(cs, i), denylist, budget);
  }

  lemma PassOn(c: Candidate, used: nat, denylist: seq<Term>, budget: nat)
    ensures var v := VerdictOn(c, used, denylist, budget);
            var pass := Owned(c) || (used < budget && (c.stat.None? || Silent(c.file, denylist,
                                                       Min(MAX_SCAN_BYTES_PER_FILE, budget - used))));
            && (pass <==> !Caught(v) && !CutShort(v))
            && (pass ==> (if Owned(c) || c.stat.None? || Broken(c.file) then 0 else |Content(c.file)|)
                         == if v.Read? then v.bytes else 0)
  {
    if !Owned(c) && used < budget && c.stat.Some? {
      ReadMeans(c, denylist, Min(MAX_SCAN_BYTES_PER_FILE, budget - used));
    }
  }

  lemma {:induction false} CaughtSome(cs: seq<Candidate>, k: nat, denylist: seq<Term>, budget: nat) returns (i: nat)
    requires k <= |cs| && CaughtPaths(cs, k, denylist, budget) != []
    ensures i < k && Caught(VerdictAt(cs, i, denylist, budget))
  {
    StepTo(cs, k - 1, denylist, budget);
    if CaughtPaths(cs, k - 1, denylist, budget) == [] {
      i := k - 1;
    } else {
      i := CaughtSome(cs, k - 1, denylist, budget);
    }
  }

  lemma {:induction false} CaughtListed(cs: seq<Candidate>, i: nat, k: nat, denylist: seq<Term>, budget: nat)
    requires i < k <= |cs| && Caught(VerdictAt(cs, i, denylist, budget))
    ensures cs[i].path in CaughtPaths(cs, k, denylist, budget)
  {
    StepTo(cs, k - 1, denylist, budget);
    if i < k - 1 { CaughtListed(cs, i, k - 1, denylist, budget); }
  }

  // ----- what clean means ----------------------------------------------------------------------------------------

  /** The denylist and the candidates' contents are text, and the carried tail covers every term. */
  predicate Plain(cs: seq<Candidate>, denylist: seq<Term>) {
    && (forall i :: 0 <= i < |cs| ==> WellFormed(Content(cs[i].file)))
    && (forall i :: 0 <= i < |denylist| && denylist[i] != [] ==> Fits(denylist[i], Overlap(denylist)))
  }

  /** The `i`-th candidate is excluded by name; or the budget is not used up before it, and it has no status or what can
      be read of it stays under its allowance and holds no term. */
  predicate Innocent(cs: seq<Candidate>, i: nat, denylist: seq<Term>, budget: nat)
    requires i < |cs|
  {
    var f := cs[i].file;
    Owned(cs[i])
    || (ReadableBytes(cs, i) < budget
        && (cs[i].stat.None? || (|Part(f)| < Allowance(cs, i, budget) && !ByteHit(denylist, Part(f)))))
  }

  /** For text the windows say nothing that the bytes do not. */
  lemma PassesExactly(cs: seq<Candidate>, i: nat, denylist: seq<Term>, budget: nat)
    requires i < |cs| && Plain(cs, denylist)
    ensures Passes(cs, i, denylist, budget) <==> Innocent(cs, i, denylist, budget)
  {
    SeenExactly(cs[i].file.chunks, Reads(cs[i].file), denylist, Overlap(denylist));
  }

  /** So a scan of text is clean if and only if every candidate is innocent. */
  lemma {:induction false} CleanExactly(cs: seq<Candidate>, k: nat, denylist: seq<Term>, budget: nat)
    requires k <= |cs| && Plain(cs, denylist)
    ensures AllPass(cs, k, denylist, budget) <==> forall i :: 0 <= i < k ==> Innocent(cs, i, denylist, budget)
  {
    if k > 0 {
      CleanExactly(cs, k - 1, denylist, budget);
      PassesExactly(cs, k - 1, denylist, budget);
    }
  }

  /** What is read of a file under a limit: chunk by chunk until the limit is met, the file ends or a read fails. */
  function Within(f: File, limit: nat): seq<Byte> { Joined(f.chunks, Reach(f, limit, 0)) }

  /** A candidate whose content is text is reported exactly when it is not excluded by name, the budget was not used up
      before it, it has a status, and what its allowance lets be read of it holds a term. */
  lemma CaughtExactly(cs: seq<Candidate>, i: nat, denylist: seq<Term>, budget: nat)
    requires i < |cs| && Plain(cs, denylist)
    ensures var used := Used(cs, i, denylist, budget);
            Caught(VerdictAt(cs, i, denylist, budget)) <==>
              && cs[i].path != "README.md" && cs[i].path != "LICENSE" && used < budget && cs[i].stat.Some?
              && ByteHit(denylist, Within(cs[i].file, Min(64 * 1024 * 1024, budget - used)))
  {
    var used := Used(cs, i, denylist, budget);
    if used < budget { ShownUnder(cs[i].file, denylist, Min(MAX_SCAN_BYTES_PER_FILE, budget - used)); }
  }

  lemma ShownUnder(f: File, denylist: seq<Term>, limit: nat)
    requires WellFormed(Content(f))
    requires forall i :: 0 <= i < |denylist| && denylist[i] != [] ==> Fits(denylist[i], Overlap(denylist))
    ensures Caught(ReadUnder(f, denylist, limit)) <==> ByteHit(denylist, Within(f, limit))
  {
    SeenExactly(f.chunks, Reach(f, limit, 0), denylist, Overlap(denylist));
  }

  /** Only what can be read counts: a file whose first read fails passes, whatever it holds. */
  lemma UnreadablePasses(cs: seq<Candidate>, i: nat, denylist: seq<Term>, budget: nat)
    requires i < |cs| && ReadableBytes(cs, i) < budget && cs[i].file.failsAt == Some(0)
    ensures Passes(cs, i, denylist, budget)
  {
    assert Part(cs[i].file) == [];
  }

  /** For instance, a tree whose one file holds nothing but the term, and cannot be opened, is clean. */
  method UnreadableTreeIsClean(path: string, stat: Option<Stat>, term: Term, budget: nat, now: int)
    returns (c: Candidate, r: Result)
    requires term != [] && Scalars(term) && |Encode(term)| <= CHUNK_BYTES && budget > 0
    ensures c == Candidate(path, stat, File([Encode(term)], Some(0)))
    ensures ByteHit([term], Content(c.file)) && r.status == Clean
  {
    c := Candidate(path, stat, File([Encode(term)], Some(0)));
    EncodeStarts(term);
    assert Joined(c.file.chunks, 1) == Joined(c.file.chunks, 0) + Encode(term);
    Inside([], Encode(term), []);
    assert [] + Encode(term) + [] == Encode(term);
    assert HeldBy([term][0], Content(c.file));
    UnreadablePasses([c], 0, [term], budget);
    r := ScanTree([c], [term], budget, now);
  }

  // ----- several scopes ------------------------------------------------------------------------------------------

  /** The overall status of a set of scopes. */
  method JoinStatus(statuses: seq<Status>) returns (overall: Status)
    ensures overall == Clean <==> forall i :: 0 <= i < |statuses| ==> statuses[i] == Clean || statuses[i] == NotInScope
    ensures overall == Findings <==> Findings in statuses
    ensures overall in {Findings, Incomplete, Clean}
  {
    if Findings in statuses {
      assert exists i :: 0 <= i < |statuses| && statuses[i] == Findings;
      overall := Findings;
    } else if Incomplete in statuses {
      assert exists i :: 0 <= i < |statuses| && statuses[i] == Incomplete;
      overall := Incomplete;
    } else {
      assert forall i :: 0 <= i < |statuses| ==> statuses[i] != Findings && statuses[i] != Incomplete;
      overall := Clean;
    }
  }

  /** A full scan over tracked files and, if declared, retained evidence, next to a history scan of known status. */
  method RunFullScan(tracked: seq<Candidate>, retained: Option<seq<Candidate>>, history: Status,
                     denylist: seq<Term>, budget: nat, now: int) returns (overall: Status)
    requires forall i :: 0 <= i < |tracked| ==> ValidFile(tracked[i].file)
    requires retained.Some? ==> forall i :: 0 <= i < |retained.value| ==> ValidFile(retained.value[i].file)
    ensures overall == Clean <==>
              && AllPass(tracked, |tracked|, denylist, budget)
              && (retained.Some? ==> AllPass(retained.value, |retained.value|, denylist, budget))
              && history in {Clean, NotInScope}
    ensures overall == Findings <==>
              || CaughtPaths(tracked, |tracked|, denylist, budget) != []
              || (retained.Some? && CaughtPaths(retained.value, |retained.value|, denylist, budget) != [])
              || history == Findings
    ensures overall in {Findings, Incomplete, Clean}
  {
    var t := ScanTree(tracked, denylist, budget, now);
    var evidence := NotInScope;
    if retained.Some? {
      var e := ScanTree(retained.value, denylist, budget, now);
      evidence := e.status;
    }
    var statuses := [t.status, evidence, history];
    overall := JoinStatus(statuses);
    assert statuses[0] == t.status && statuses[1] == evidence && statuses[2] == history;
  }
}
