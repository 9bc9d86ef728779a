/**
 * The rule that calls a timed run clean or contended, the re-runs of a contended one, and the ledger
 * over every invocation of a job. Shares are exact here, where the source divides floats.
 */
module Conditions {
  import opened Options

  const QUANTUM_TICKS := 2.0
  const PSI_MIN_WINDOW_NS := 500_000_000

  /** One snapshot: the clock, the ticks of the measured CPUs, host-wide and bench-slice stall time. */
  datatype Sample = Sample(wallNs: int, busy: int, total: int, hostUs: Option<int>, sliceUs: Option<int>)

  /** How to judge: ticks a second, the two bars in percent, and whether a bench slice must exist. */
  datatype Rule = Rule(clkTck: nat, foreignMax: real, pressureMax: real, scorePressure: bool, sliceNeeded: bool)

  datatype Reason = Foreign | NoSlice | Pressure

  datatype Run = Run(reasons: seq<Reason>, foreign: real, pressure: Option<real>, host: Option<real>)

  predicate Clean(r: Run) {
    r.reasons == []
  }

  function Gain(before: int, after: int): int {
    if after < before then 0 else after - before
  }

  /** Stall time gained over the window as a percent of its length. */
  function WindowPercent(us0: Option<int>, us1: Option<int>, wallNs: int): Option<real> {
    if us0.None? || us1.None? || wallNs <= 0 then None
    else Some(Gain(us0.value, us1.value) as real * 1000.0 / wallNs as real * 100.0)
  }

  /** Busy ticks that are not the run's own. */
  function ForeignTicks(before: Sample, after: Sample, ownCpu: real, rule: Rule): real {
    var t := Gain(before.busy, after.busy) as real - ownCpu * rule.clkTck as real;
    if t < 0.0 then 0.0 else t
  }

  function ForeignPercent(before: Sample, after: Sample, ownCpu: real, rule: Rule): real {
    var total := Gain(before.total, after.total);
    if total == 0 then 0.0 else ForeignTicks(before, after, ownCpu, rule) / total as real * 100.0
  }

  function Classify(before: Sample, after: Sample, ownCpu: real, rule: Rule): Run {
    var foreign := ForeignPercent(before, after, ownCpu, rule);
    var wall := Gain(before.wallNs, after.wallNs);
    var psi := WindowPercent(before.sliceUs, after.sliceUs, wall);
    var reasons :=
      (if ForeignTicks(before, after, ownCpu, rule) > QUANTUM_TICKS && foreign > rule.foreignMax then [Foreign] else [])
      + (if rule.sliceNeeded && (before.sliceUs.None? || after.sliceUs.None?) then [NoSlice] else [])
      + (if rule.scorePressure && wall >= PSI_MIN_WINDOW_NS && psi.Some? && psi.value > rule.pressureMax then [Pressure] else []);
    Run(reasons, foreign, psi, WindowPercent(before.hostUs, after.hostUs, wall))
  }

  /** Host-wide pressure is recorded and decides nothing: it changes neither the verdict nor its reasons. */
  lemma HostPressureNeverDecides(before: Sample, after: Sample, h0: Option<int>, h1: Option<int>, ownCpu: real, rule: Rule)
    ensures Classify(before.(hostUs := h0), after.(hostUs := h1), ownCpu, rule) ==
            Classify(before, after, ownCpu, rule).(host := WindowPercent(h0, h1, Gain(before.wallNs, after.wallNs)))
  {
    assert ForeignTicks(before.(hostUs := h0), after.(hostUs := h1), ownCpu, rule) == ForeignTicks(before, after, ownCpu, rule);
  }

  /** What is held against a run, without a division: foreign ticks past the quantum and past their bar. */
  ghost predicate TooForeign(before: Sample, after: Sample, ownCpu: real, rule: Rule) {
    var ticks := Gain(before.busy, after.busy) as real - ownCpu * rule.clkTck as real;
    var total := Gain(before.total, after.total);
    ticks > QUANTUM_TICKS && if total > 0 then 100.0 * ticks > rule.foreignMax * total as real else rule.foreignMax < 0.0
  }

  /** A bench slice that must be there and is not. */
  ghost predicate SliceMissing(before: Sample, after: Sample, rule: Rule) {
    rule.sliceNeeded && (before.sliceUs.None? || after.sliceUs.None?)
  }

  /** Stall time past its bar, in a window long enough to tell. */
  ghost predicate TooPressed(before: Sample, after: Sample, rule: Rule) {
    var wall := Gain(before.wallNs, after.wallNs);
    && rule.scorePressure && before.sliceUs.Some? && after.sliceUs.Some? && wall >= PSI_MIN_WINDOW_NS
    && 100.0 * Gain(before.sliceUs.value, after.sliceUs.value) as real * 1000.0 > rule.pressureMax * wall as real
  }

  /** A run is clean exactly when none of the three is held against it. */
  lemma CleanIff(before: Sample, after: Sample, ownCpu: real, rule: Rule)
    ensures Clean(Classify(before, after, ownCpu, rule)) <==>
            !TooForeign(before, after, ownCpu, rule) && !SliceMissing(before, after, rule) && !TooPressed(before, after, rule)
  {
    var total, wall := Gain(before.total, after.total), Gain(before.wallNs, after.wallNs);
    if total > 0 { ShareAbove(ForeignTicks(before, after, ownCpu, rule), total as real, rule.foreignMax); }
    if before.sliceUs.Some? && after.sliceUs.Some? && wall > 0 {
      ShareAbove(Gain(before.sliceUs.value, after.sliceUs.value) as real * 1000.0, wall as real, rule.pressureMax);
    }
  }

  lemma ShareAbove(part: real, whole: real, bar: real)
    requires whole > 0.0
    ensures part / whole * 100.0 > bar <==> 100.0 * part > bar * whole
  {
    var share := part / whole;
    assert share * whole == part;
    if share * 100.0 > bar { assert (share * 100.0 - bar) * whole > 0.0; } else { assert (bar - share * 100.0) * whole >= 0.0; }
  }

  /** Own time is never held against a run, and no bar, raised, makes a clean run contended. */
  lemma Monotone(before: Sample, after: Sample, own: real, more: real, rule: Rule, lax: Rule)
    requires own <= more && rule.foreignMax <= lax.foreignMax && rule.pressureMax <= lax.pressureMax
    requires lax == rule.(foreignMax := lax.foreignMax, pressureMax := lax.pressureMax)
    requires Clean(Classify(before, after, own, rule))
    ensures Clean(Classify(before, after, more, lax))
  {
    var t, t' := ForeignTicks(before, after, own, rule), ForeignTicks(before, after, more, lax);
    assert own * rule.clkTck as real <= more * rule.clkTck as real;
    assert t' <= t;
    var total := Gain(before.total, after.total);
    if total > 0 { ShareOrder(t', t, total as real); }
  }

  lemma ShareOrder(a: real, b: real, total: real)
    requires a <= b && total > 0.0
    ensures a / total <= b / total
  {
  }

  // --- Re-runs ----------------------------------------------------------------------------------

  function Budget(attempts: int): nat {
    if attempts < 1 then 1 else attempts
  }

  /** The tries of one invocation: as many as it takes to be clean, and no more than the budget. */
  ghost predicate Tries(tried: seq<Run>, run: nat -> Run, budget: nat) {
    && 1 <= |tried| <= budget
    && (forall k :: 0 <= k < |tried| ==> tried[k] == run(k))
    && (forall k :: 0 <= k < |tried| - 1 ==> !Clean(tried[k]))
    && (Clean(tried[|tried| - 1]) || |tried| == budget)
  }

  /** Run until clean. `run(k)` is what the machine makes of try `k`. */
  method Measure(attempts: int, run: nat -> Run) returns (tried: seq<Run>)
    ensures Tries(tried, run, Budget(attempts))
  {
    tried := [];
    var budget := Budget(attempts);
    for i := 0 to budget
      invariant |tried| == i && forall k :: 0 <= k < i ==> tried[k] == run(k) && !Clean(tried[k])
    {
      tried := tried + [run(i)];
      if Clean(run(i)) { return; }
    }
  }

  /** The first clean try from `k` on, or the budget when none within it is clean. */
  function FirstClean(run: nat -> Run, budget: nat, k: nat): (n: nat)
    requires k <= budget
    ensures k <= n <= budget && (n < budget ==> Clean(run(n))) && forall j :: k <= j < n ==> !Clean(run(j))
    decreases budget - k
  {
    if k == budget || Clean(run(k)) then k else FirstClean(run, budget, k + 1)
  }

  /** The tries an invocation needs: up to its first clean one, or all of its budget. */
  function Needed(run: nat -> Run, budget: nat): nat {
    var n := FirstClean(run, budget, 0);
    if n < budget then n + 1 else budget
  }

  /** The tries made are the tries needed, and the kept one is clean exactly when one within the budget would be. */
  lemma KeptIsClean(tried: seq<Run>, run: nat -> Run, budget: nat)
    requires Tries(tried, run, budget)
    ensures |tried| == Needed(run, budget)
    ensures Clean(tried[|tried| - 1]) <==> exists k :: 0 <= k < budget && Clean(run(k))
  {
    var n, f := |tried| - 1, FirstClean(run, budget, 0);
    assert tried[n] == run(n);
    assert f <= n ==> tried[f] == run(f);
    if !Clean(tried[n]) {
      forall k | 0 <= k < budget ensures !Clean(run(k)) {
        assert tried[k] == run(k);
      }
    }
  }

  // --- The ledger -------------------------------------------------------------------------------

  /** One invocation's tries; a record read from a file may have none. */
  datatype Entry = Entry(tries: seq<Run>)

  function TotalTries(entries: seq<Entry>): nat {
    if entries == [] then 0 else TotalTries(entries[..|entries| - 1]) + |entries[|entries| - 1].tries|
  }

  ghost predicate AllKeptClean(entries: seq<Entry>) {
    forall i :: 0 <= i < |entries| ==> entries[i].tries != [] ==> Clean(entries[i].tries[|entries[i].tries| - 1])
  }

  class Ledger {
    var entries: seq<Entry>

    constructor (entries: seq<Entry>)
      ensures this.entries == entries
    {
      this.entries := entries;
    }

    method Add(tried: seq<Run>)
      modifies this
      ensures entries == old(entries) + [Entry(tried)]
    {
      entries := entries + [Entry(tried)];
    }

    /** Whether the kept try of every invocation is clean. */
    method IsClean() returns (clean: bool)
      ensures clean <==> AllKeptClean(entries)
    {
      for i := 0 to |entries|
        invariant AllKeptClean(entries[..i])
      {
        var t := entries[i].tries;
        if t != [] && !Clean(t[|t| - 1]) { return false; }
        assert entries[..i + 1] == entries[..i] + [entries[i]];
      }
      assert entries[..|entries|] == entries;
      return true;
    }

    /** How many tries contention cost beyond one each. */
    method Reruns() returns (n: int)
      ensures n == TotalTries(entries) - |entries|
    {
      n := 0;
      for i := 0 to |entries|
        invariant n == TotalTries(entries[..i]) - i
      {
        assert entries[..i + 1][..i] == entries[..i];
        n := n + |entries[i].tries| - 1;
      }
      assert entries[..|entries|] == entries;
    }
  }

  /** Try `k` of invocation `i` can be clean within its budget. */
  ghost predicate CanBeClean(attempts: seq<int>, run: nat -> nat -> Run, i: nat)
    requires i < |attempts|
  {
    exists k :: 0 <= k < Budget(attempts[i]) && Clean(run(i)(k))
  }

  /** Every entry holds the tries of its invocation. */
  ghost predicate Recorded(entries: seq<Entry>, attempts: seq<int>, run: nat -> nat -> Run) {
    && |entries| <= |attempts|
    && forall j :: 0 <= j < |entries| ==> Tries(entries[j].tries, run(j), Budget(attempts[j]))
  }

  /** The tries that the first `n` invocations need. */
  function AllNeeded(attempts: seq<int>, run: nat -> nat -> Run, n: nat): nat
    requires n <= |attempts|
  {
    if n == 0 then 0 else AllNeeded(attempts, run, n - 1) + NeededAt(attempts, run, n - 1)
  }

  /** The tries that invocation `j` needs. */
  function NeededAt(attempts: seq<int>, run: nat -> nat -> Run, j: nat): nat
    requires j < |attempts|
  {
    Needed(run(j), Budget(attempts[j]))
  }

  lemma RecordedVerdict(entries: seq<Entry>, attempts: seq<int>, run: nat -> nat -> Run)
    requires Recorded(entries, attempts, run) && |entries| == |attempts|
    ensures AllKeptClean(entries) <==> forall i :: 0 <= i < |attempts| ==> CanBeClean(attempts, run, i)
  {
    forall j | 0 <= j < |attempts|
      ensures var t := entries[j].tries; t != [] && (Clean(t[|t| - 1]) <==> CanBeClean(attempts, run, j))
    {
      KeptIsClean(entries[j].tries, run(j), Budget(attempts[j]));
    }
  }

  lemma {:induction false} RecordedTries(entries: seq<Entry>, attempts: seq<int>, run: nat -> nat -> Run, n: nat)
    requires Recorded(entries, attempts, run) && n <= |entries|
    ensures TotalTries(entries[..n]) == AllNeeded(attempts, run, n)
  {
    if n > 0 {
      RecordedTries(entries, attempts, run, n - 1);
      RecordedNeeds(entries, attempts, run, n - 1);
      assert entries[..n][..n - 1] == entries[..n - 1];
    }
  }

  lemma RecordedNeeds(entries: seq<Entry>, attempts: seq<int>, run: nat -> nat -> Run, j: nat)
    requires Recorded(entries, attempts, run) && j < |entries|
    ensures |entries[j].tries| == NeededAt(attempts, run, j)
  {
    KeptIsClean(entries[j].tries, run(j), Budget(attempts[j]));
  }

  /**
   * A whole job: each invocation measured and recorded. Its ledger is clean exactly when every
   * invocation had a clean try within its budget, and its re-runs are the tries beyond one each that
   * its invocations need.
   */
  method Job(attempts: seq<int>, run: nat -> nat -> Run) returns (clean: bool, reruns: int)
    ensures clean <==> forall i :: 0 <= i < |attempts| ==> CanBeClean(attempts, run, i)
    ensures reruns == AllNeeded(attempts, run, |attempts|) - |attempts|
  {
    var ledger := new Ledger([]);
    for i := 0 to |attempts|
      invariant fresh(ledger) && |ledger.entries| == i && Recorded(ledger.entries, attempts, run)
    {
      var tried := Measure(attempts[i], run(i));
      ledger.Add(tried);
    }
    clean := ledger.IsClean();
    reruns := ledger.Reruns();
    RecordedVerdict(ledger.entries, attempts, run);
    RecordedTries(ledger.entries, attempts, run, |attempts|);
    assert ledger.entries[..|attempts|] == ledger.entries;
  }
}
