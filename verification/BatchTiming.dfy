/**
 The window-calibrated timing loop, against an adversarial clock. `clock(k)` is the `k`-th reading;
 the only thing known of it is that it never goes back. Per-operation figures are exact: a kept
 window divided by the one batch all kept windows share, so the windows stand for them in order.
 */
module BatchTiming {
  import ByteOrder
  import opened Powers
  import opened Sorting

  const MAX_BATCH: nat := 0x10_0000
  const MIN_WINDOW_NS: nat := 20_000
  const TARGET_NS: nat := 40_000
  const MIN_SAMPLES: nat := 16

  /** Reading `j` is not before reading `i`. */
  predicate NotBefore(clock: nat -> nat, i: nat, j: nat) {
    clock(i) <= clock(j)
  }

  ghost predicate Monotone(clock: nat -> nat) {
    forall i: nat, j: nat :: i <= j ==> NotBefore(clock, i, j)
  }

  lemma Pow2Twenty()
    ensures Pow2(20) == MAX_BATCH
  {
    assert Pow2(5) == 32;
    assert Pow2(10) == 1024;
    assert Pow2(15) == 32768;
  }

  /** The time between readings `k` and `k + 1`. */
  function Window(clock: nat -> nat, k: nat): int {
    clock(k + 1) - clock(k)
  }

  /**
   `batch` is 2^`e`, the smallest power of two whose window reached `target`, or the ceiling when none
   below it did; the `j`-th try reads the clock at `k + 2 * j`, and `k'` is the next reading.
   */
  ghost predicate CalibratedAt(clock: nat -> nat, k: nat, target: nat, batch: nat, k': nat, e: nat) {
    && e <= 20 && batch == Pow2(e) && AllShort(clock, k, e, target)
    && (if e < 20 then Window(clock, k + 2 * e) >= target && k' == k + 2 * e + 2 else k' == k + 2 * e)
  }

  ghost predicate Calibrated(clock: nat -> nat, k: nat, target: nat, batch: nat, k': nat) {
    exists e :: CalibratedAt(clock, k, target, batch, k', e)
  }

  /** Double the batch until its window reaches `target`. */
  method CalibrateBatchForWindow(clock: nat -> nat, k: nat, target: nat) returns (batch: nat, k': nat)
    ensures Calibrated(clock, k, target, batch, k')
  {
    batch, k' := 1, k;
    ghost var e := 0;
    while batch < MAX_BATCH
      invariant 0 <= e <= 20 && batch == Pow2(e) && k' == k + 2 * e && AllShort(clock, k, e, target)
      decreases 20 - e
    {
      Ceiling(e);
      var w := clock(k' + 1) - clock(k');
      k' := k' + 2;
      if w >= target {
        assert CalibratedAt(clock, k, target, batch, k', e);
        return;
      }
      AllShortNext(clock, k, e, target);
      batch, e := batch * 2, e + 1;
    }
    Ceiling(e);
    assert CalibratedAt(clock, k, target, batch, k', e);
  }

  /** The first `e` tries fell short of the target. */
  ghost predicate AllShort(clock: nat -> nat, k: nat, e: nat, target: nat) {
    e == 0 || (Window(clock, k + 2 * (e - 1)) < target && AllShort(clock, k, e - 1, target))
  }

  lemma AllShortNext(clock: nat -> nat, k: nat, e: nat, target: nat)
    requires AllShort(clock, k, e, target) && Window(clock, k + 2 * e) < target
    ensures AllShort(clock, k, e + 1, target)
  {
  }

  lemma Ceiling(e: nat)
    requires e <= 20
    ensures Pow2(e) >= MAX_BATCH <==> e == 20
    ensures e == 20 ==> Pow2(e) == MAX_BATCH
  {
    Pow2Twenty();
    if e < 20 { Pow2Mono(e, 20); }
  }

  // --- The timed loop -------------------------------------------------------------------------

  /** What a batch row reports; `windows` are the kept windows, `total` the loop's elapsed time. */
  datatype Timing = Timing(batch: nat, samples: nat, minWindow: nat, recalibrations: nat, ops: nat, total: nat,
                           p50Ps: real, meanPs: real, opsPerS: real)

  datatype Outcome = Aborted(window: nat, batch: nat) | Timed(timing: Timing, windows: seq<nat>)

  /** One window's per-operation time in picoseconds, kept fractional. */
  function PerOpPs(window: nat, batch: nat): real
    requires batch > 0
  {
    window as real * 1000.0 / batch as real
  }

  /** The per-operation figures of the kept windows, summed. */
  function SumPs(s: seq<nat>, batch: nat): real
    requires batch > 0
  {
    if s == [] then 0.0 else SumPs(s[..|s| - 1], batch) + PerOpPs(s[|s| - 1], batch)
  }

  lemma {:induction false} SumPsIsTotal(s: seq<nat>, batch: nat)
    requires batch > 0
    ensures SumPs(s, batch) == PerOpPs(Sum(s), batch)
  {
    if s != [] {
      SumPsIsTotal(s[..|s| - 1], batch);
      var a, b := Sum(s[..|s| - 1]), s[|s| - 1];
      assert (a + b) as real == a as real + b as real;
      DivDistributes(a as real * 1000.0, b as real * 1000.0, batch as real);
    }
  }

  lemma DivDistributes(x: real, y: real, d: real)
    requires d != 0.0
    ensures (x + y) / d == x / d + y / d
  {
  }

  /** At one batch, figures are ordered as their windows are. */
  lemma PerOpOrder(v: nat, w: nat, batch: nat)
    requires batch > 0
    ensures v <= w <==> PerOpPs(v, batch) <= PerOpPs(w, batch)
  {
    var x, y, d := v as real * 1000.0, w as real * 1000.0, batch as real;
    assert x / d * d == x && y / d * d == y;
    if v > w {
      assert x > y;
    }
  }

  lemma SumAppend(s: seq<nat>, x: nat)
    ensures Sum(s + [x]) == Sum(s) + x
  {
    assert (s + [x])[..|s|] == s;
  }

  /** The most windows one era may keep. */
  function MaxKept(budget: nat): nat {
    var n := (budget + MIN_WINDOW_NS - 1) / MIN_WINDOW_NS;
    if n < MIN_SAMPLES then MIN_SAMPLES else n
  }

  /** The operations of `n` windows. */
  function Ops(n: nat, batch: nat): nat {
    if n == 0 then 0 else Ops(n - 1, batch) + batch
  }

  lemma {:induction false} OpsIsProduct(n: nat, batch: nat)
    ensures Ops(n, batch) == n * batch
  {
    if n > 0 { OpsIsProduct(n - 1, batch); }
  }

  lemma {:induction false} OpsGrow(m: nat, n: nat, batch: nat)
    requires m <= n
    ensures Ops(m, batch) <= Ops(n, batch)
  {
    if m < n { OpsGrow(m, n - 1, batch); }
  }

  /** Every kept window reaches both floors, and the lower one is among them. */
  ghost predicate Floored(windows: seq<nat>, minWindow: nat) {
    && (forall i :: 0 <= i < |windows| ==> windows[i] >= MIN_WINDOW_NS && windows[i] >= minWindow)
    && (windows != [] ==> minWindow in windows)
  }

  lemma KeepFloored(windows: seq<nat>, m: nat, w: nat)
    requires Floored(windows, m) && w >= MIN_WINDOW_NS
    ensures Floored(windows + [w], if windows == [] || w < m then w else m)
  {
    var ws := windows + [w];
    assert ws[|windows|] == w;
    if !(windows == [] || w < m) { assert m in ws; }
  }

  /** The samples of the current era. */
  datatype Kept = Kept(windows: seq<nat>, minWindow: nat, ops: nat, total: nat)
  {
    /** Whether sampling goes on. */
    predicate More(budget: nat, maxOps: nat) {
      |windows| < MIN_SAMPLES || (total < budget && ops < maxOps)
    }

    function Keep(w: nat, batch: nat, total': nat): Kept {
      Kept(windows + [w], if windows == [] || w < minWindow then w else minWindow, ops + batch, total')
    }
  }

  const NONE_KEPT: Kept := Kept([], ByteOrder.U64 - 1, 0, 0)

  // --- What the clock says of the loop --------------------------------------------------------

  /** Window `i` of an era whose first window starts at reading `start`: a turn of the loop reads the clock three times. */
  function WindowAt(clock: nat -> nat, start: nat, i: nat): int {
    Window(clock, start + 3 * i)
  }

  /** The era's elapsed time after `n` windows, since the reading before its first. */
  function Elapsed(clock: nat -> nat, start: nat, n: nat): int
    requires start > 0
  {
    clock(start + 3 * n - 1) - clock(start - 1)
  }

  ghost predicate AllLong(clock: nat -> nat, start: nat, n: nat) {
    forall i: nat :: i < n ==> WindowAt(clock, start, i) >= MIN_WINDOW_NS
  }

  /** After `n` windows the loop goes on. */
  predicate GoesOn(clock: nat -> nat, start: nat, n: nat, batch: nat, budget: nat, maxOps: nat)
    requires start > 0
  {
    n < MIN_SAMPLES || (Elapsed(clock, start, n) < budget && Ops(n, batch) < maxOps)
  }

  /** The era keeps `n` windows, goes on, and finds the next one short. */
  ghost predicate CutShort(clock: nat -> nat, start: nat, n: nat, batch: nat, budget: nat, maxOps: nat)
    requires start > 0
  {
    && AllLong(clock, start, n) && GoesOn(clock, start, n, batch, budget, maxOps)
    && WindowAt(clock, start, n) < MIN_WINDOW_NS
  }

  /** The era keeps `n` windows and stops there, and not before. */
  ghost predicate Completes(clock: nat -> nat, start: nat, n: nat, batch: nat, budget: nat, maxOps: nat)
    requires start > 0
  {
    && AllLong(clock, start, n) && !GoesOn(clock, start, n, batch, budget, maxOps)
    && (n > 0 ==> GoesOn(clock, start, n - 1, batch, budget, maxOps))
  }

  /** The eras before the current one, each cut short after the windows it kept. */
  datatype Eras = First | Cut(before: Eras, kept: nat)
  {
    function Count(): nat {
      if First? then 0 else before.Count() + 1
    }

    /** Where the era after them starts; the reading at `k` comes before the first. */
    function Start(k: nat): (start: nat)
      ensures start > 0
    {
      if First? then k + 1 else before.Start(k) + 3 * kept + 3
    }
  }

  /** Each of them was cut short at its own batch, 2^`e` for the first. */
  ghost predicate AllCut(clock: nat -> nat, k: nat, e: nat, cuts: Eras, budget: nat, maxOps: nat) {
    cuts.First? ||
    (&& AllCut(clock, k, e, cuts.before, budget, maxOps)
     && CutShort(clock, cuts.before.Start(k), cuts.kept, Pow2(e + cuts.before.Count()), budget, maxOps))
  }

  /** The kept samples are the clock's. */
  ghost predicate FromClock(clock: nat -> nat, start: nat, s: Kept)
    requires start > 0
  {
    && (forall i :: 0 <= i < |s.windows| ==> s.windows[i] == WindowAt(clock, start, i))
    && s.total == Elapsed(clock, start, |s.windows|)
  }

  /** What is so of the current era at the top of the loop. */
  ghost predicate Sampling(clock: nat -> nat, start: nat, s: Kept, batch: nat, budget: nat, maxOps: nat)
    requires start > 0
  {
    && FromClock(clock, start, s) && Floored(s.windows, s.minWindow) && s.ops == Ops(|s.windows|, batch)
    && (s.windows != [] ==> GoesOn(clock, start, |s.windows| - 1, batch, budget, maxOps))
  }

  lemma NoneKept(clock: nat -> nat, start: nat, batch: nat, budget: nat, maxOps: nat)
    requires start > 0
    ensures Sampling(clock, start, NONE_KEPT, batch, budget, maxOps)
  {
  }

  lemma FlooredIsLong(clock: nat -> nat, start: nat, s: Kept)
    requires start > 0 && FromClock(clock, start, s) && Floored(s.windows, s.minWindow)
    ensures AllLong(clock, start, |s.windows|)
  {
    forall i: nat | i < |s.windows| ensures WindowAt(clock, start, i) >= MIN_WINDOW_NS {
      assert s.windows[i] >= MIN_WINDOW_NS;
    }
  }

  /** The readings around a window do not overlap it. */
  lemma ElapsedGrows(clock: nat -> nat, start: nat, n: nat)
    requires Monotone(clock) && start > 0
    ensures Elapsed(clock, start, n + 1) >= Elapsed(clock, start, n) + WindowAt(clock, start, n)
  {
    var k := start + 3 * n;
    assert NotBefore(clock, k - 1, k) && NotBefore(clock, k + 1, k + 2);
    assert start + 3 * (n + 1) - 1 == k + 2;
  }

  /** The windows of an era add up to no more than its elapsed time, and to no less than their floor. */
  lemma {:induction false} SumElapsed(clock: nat -> nat, start: nat, ws: seq<nat>)
    requires Monotone(clock) && start > 0
    requires forall i :: 0 <= i < |ws| ==> ws[i] == WindowAt(clock, start, i) && ws[i] >= MIN_WINDOW_NS
    ensures |ws| * MIN_WINDOW_NS <= Sum(ws) <= Elapsed(clock, start, |ws|)
  {
    if ws != [] {
      SumElapsed(clock, start, ws[..|ws| - 1]);
      ElapsedGrows(clock, start, |ws| - 1);
    }
  }

  /** A loop that goes on has room for one more window. */
  lemma RoomForOne(clock: nat -> nat, start: nat, n: nat, ws: seq<nat>, batch: nat, budget: nat, maxOps: nat)
    requires Monotone(clock) && start > 0 && n == |ws| && GoesOn(clock, start, n, batch, budget, maxOps)
    requires forall i :: 0 <= i < |ws| ==> ws[i] == WindowAt(clock, start, i) && ws[i] >= MIN_WINDOW_NS
    ensures n < MaxKept(budget)
  {
    SumElapsed(clock, start, ws);
  }

  /** What the kept windows of an era satisfy. */
  ghost predicate Era(windows: seq<nat>, batch: nat, minWindow: nat, ops: nat, total: nat, budget: nat) {
    && Floored(windows, minWindow)
    && ops == |windows| * batch
    && |windows| * MIN_WINDOW_NS <= Sum(windows) <= total
    && |windows| <= MaxKept(budget)
  }

  lemma SampledEra(clock: nat -> nat, start: nat, s: Kept, batch: nat, budget: nat, maxOps: nat)
    requires Monotone(clock) && start > 0 && Sampling(clock, start, s, batch, budget, maxOps)
    ensures Era(s.windows, batch, s.minWindow, s.ops, s.total, budget)
  {
    SumElapsed(clock, start, s.windows);
    OpsIsProduct(|s.windows|, batch);
    if s.windows != [] {
      RoomForOne(clock, start, |s.windows| - 1, s.windows[..|s.windows| - 1], batch, budget, maxOps);
    }
  }

  lemma KeepFromClock(clock: nat -> nat, start: nat, s: Kept, s': Kept, w: nat)
    requires start > 0 && FromClock(clock, start, s) && w == WindowAt(clock, start, |s.windows|)
    requires s'.windows == s.windows + [w] && s'.total == Elapsed(clock, start, |s.windows| + 1)
    ensures FromClock(clock, start, s')
  {
  }

  /** One more window kept. */
  lemma KeepSampling(clock: nat -> nat, start: nat, s: Kept, w: nat, batch: nat, total': nat, budget: nat, maxOps: nat)
    requires start > 0 && Sampling(clock, start, s, batch, budget, maxOps)
    requires GoesOn(clock, start, |s.windows|, batch, budget, maxOps)
    requires w == WindowAt(clock, start, |s.windows|) && w >= MIN_WINDOW_NS
    requires total' == Elapsed(clock, start, |s.windows| + 1)
    ensures Sampling(clock, start, s.Keep(w, batch, total'), batch, budget, maxOps)
  {
    KeepFloored(s.windows, s.minWindow, w);
    KeepFromClock(clock, start, s, s.Keep(w, batch, total'), w);
    assert Ops(|s.windows| + 1, batch) == Ops(|s.windows|, batch) + batch;
  }

  /** The state of the sampling loop: `k` is the next reading, `t0` the one before the era's first window. */
  datatype Loop = Loop(s: Kept, batch: nat, recalibrations: nat, k: nat, t0: nat)

  /** The eras of `cuts` were cut short; the next starts at `start` with this batch, 2^`last`. */
  ghost predicate CutTo(clock: nat -> nat, k0: nat, e: nat, cuts: Eras, start: nat, last: nat, batch: nat,
                        budget: nat, maxOps: nat)
  {
    && start == cuts.Start(k0) && last == e + cuts.Count() <= 20 && batch == Pow2(last)
    && AllCut(clock, k0, e, cuts, budget, maxOps)
  }

  /** What is so at the top of the loop, in the era that starts at `start`. */
  ghost predicate AtTop(clock: nat -> nat, start: nat, l: Loop, budget: nat, maxOps: nat) {
    && start > 0 && l.k == start + 3 * |l.s.windows| && l.t0 == clock(start - 1)
    && Sampling(clock, start, l.s, l.batch, budget, maxOps)
  }

  lemma AtTopFirst(clock: nat -> nat, k: nat, batch: nat, recalibrations: nat, budget: nat, maxOps: nat)
    ensures AtTop(clock, k + 1, Loop(NONE_KEPT, batch, recalibrations, k + 1, clock(k)), budget, maxOps)
  {
    NoneKept(clock, k + 1, batch, budget, maxOps);
  }

  /** The readings of one turn of the loop. */
  lemma TurnReadings(clock: nat -> nat, start: nat, n: nat, k: nat)
    requires Monotone(clock) && start > 0 && k == start + 3 * n
    ensures clock(k) <= clock(k + 1) && clock(start - 1) <= clock(k + 2)
    ensures WindowAt(clock, start, n) == clock(k + 1) - clock(k)
    ensures Elapsed(clock, start, n + 1) == clock(k + 2) - clock(start - 1)
  {
    assert NotBefore(clock, k, k + 1) && NotBefore(clock, start - 1, k + 2);
    assert start + 3 * (n + 1) - 1 == k + 2;
  }

  /** What the next window means for the era, and what it means that there is none. */
  lemma NextWindow(clock: nat -> nat, start: nat, s: Kept, k: nat, batch: nat, budget: nat, maxOps: nat)
    requires Monotone(clock) && start > 0 && Sampling(clock, start, s, batch, budget, maxOps) && k == start + 3 * |s.windows|
    ensures clock(k) <= clock(k + 1) && clock(start - 1) <= clock(k + 2)
    ensures WindowAt(clock, start, |s.windows|) == clock(k + 1) - clock(k)
    ensures s.More(budget, maxOps) <==> GoesOn(clock, start, |s.windows|, batch, budget, maxOps)
    ensures s.More(budget, maxOps) && Window(clock, k) < MIN_WINDOW_NS ==>
              CutShort(clock, start, |s.windows|, batch, budget, maxOps)
    ensures !s.More(budget, maxOps) ==> Completes(clock, start, |s.windows|, batch, budget, maxOps)
  {
    TurnReadings(clock, start, |s.windows|, k);
    FlooredIsLong(clock, start, s);
  }

  /** The loop's state after a kept window, and after a short one. */
  function KeptNext(clock: nat -> nat, l: Loop, w: nat): Loop
    requires l.t0 <= clock(l.k + 2)
  {
    l.(s := l.s.Keep(w, l.batch, clock(l.k + 2) - l.t0), k := l.k + 3)
  }

  function CutNext(clock: nat -> nat, l: Loop): Loop {
    Loop(NONE_KEPT, l.batch * 2, l.recalibrations + 1, l.k + 3, clock(l.k + 2))
  }

  lemma KeepStep(clock: nat -> nat, start: nat, l: Loop, w: nat, budget: nat, maxOps: nat)
    requires Monotone(clock) && AtTop(clock, start, l, budget, maxOps)
    requires GoesOn(clock, start, |l.s.windows|, l.batch, budget, maxOps)
    requires w == Window(clock, l.k) && w >= MIN_WINDOW_NS && l.t0 <= clock(l.k + 2)
    ensures AtTop(clock, start, KeptNext(clock, l, w), budget, maxOps)
    ensures |KeptNext(clock, l, w).s.windows| == |l.s.windows| + 1 <= MaxKept(budget)
  {
    TurnReadings(clock, start, |l.s.windows|, l.k);
    KeepSampling(clock, start, l.s, w, l.batch, clock(l.k + 2) - l.t0, budget, maxOps);
    RoomForOne(clock, start, |l.s.windows|, l.s.windows, l.batch, budget, maxOps);
  }

  lemma CutStep(clock: nat -> nat, k0: nat, e: nat, cuts: Eras, start: nat, last: nat, l: Loop, budget: nat, maxOps: nat)
    returns (cuts': Eras, start': nat, last': nat)
    requires CutTo(clock, k0, e, cuts, start, last, l.batch, budget, maxOps) && start > 0 && last < 20
    requires l.k == start + 3 * |l.s.windows| && CutShort(clock, start, |l.s.windows|, l.batch, budget, maxOps)
    ensures CutTo(clock, k0, e, cuts', start', last', CutNext(clock, l).batch, budget, maxOps)
    ensures AtTop(clock, start', CutNext(clock, l), budget, maxOps) && cuts'.Count() == cuts.Count() + 1
  {
    cuts', start', last' := Cut(cuts, |l.s.windows|), l.k + 3, last + 1;
    AtTopFirst(clock, l.k + 2, l.batch * 2, l.recalibrations + 1, budget, maxOps);
  }

  /** How an era ends: cut short at the ceiling or completed. */
  ghost predicate Ends(clock: nat -> nat, start: nat, n: nat, exponent: nat, aborted: bool, budget: nat, maxOps: nat)
    requires start > 0
  {
    if aborted then exponent == 20 && CutShort(clock, start, n, Pow2(exponent), budget, maxOps)
    else Completes(clock, start, n, Pow2(exponent), budget, maxOps)
  }

  /** The era at `start` is cut short at the ceiling, by the window `short`. */
  ghost predicate Breached(clock: nat -> nat, start: nat, last: nat, l: Loop, short: int, budget: nat, maxOps: nat) {
    && start > 0 && l.batch == MAX_BATCH && short == WindowAt(clock, start, |l.s.windows|)
    && Ends(clock, start, |l.s.windows|, last, true, budget, maxOps)
  }

  /** One turn of the loop. `short` is the window that was too short at the ceiling, or -1. */
  method Turn(clock: nat -> nat, l: Loop) returns (l': Loop, short: int)
    requires l.t0 <= clock(l.k + 2) && clock(l.k) <= clock(l.k + 1)
    ensures var w := Window(clock, l.k);
            if w >= MIN_WINDOW_NS then l' == KeptNext(clock, l, w) && short == -1
            else if l.batch < MAX_BATCH then l' == CutNext(clock, l) && short == -1
            else l' == l && short == w
  {
    var w: nat := clock(l.k + 1) - clock(l.k);
    if w < MIN_WINDOW_NS {
      if l.batch >= MAX_BATCH { return l, w; }
      l' := Loop(NONE_KEPT, l.batch * 2, l.recalibrations + 1, l.k + 3, clock(l.k + 2));
    } else {
      var s := l.s;
      var kept := Kept(s.windows + [w], if s.windows == [] || w < s.minWindow then w else s.minWindow,
                       s.ops + l.batch, clock(l.k + 2) - l.t0);
      l' := l.(s := kept, k := l.k + 3);
    }
    short := -1;
  }

  /** A window is not negative, nor is what has elapsed. */
  lemma TurnDefined(clock: nat -> nat, start: nat, l: Loop, budget: nat, maxOps: nat)
    requires Monotone(clock) && AtTop(clock, start, l, budget, maxOps)
    ensures l.t0 <= clock(l.k + 2) && clock(l.k) <= clock(l.k + 1)
  {
    TurnReadings(clock, start, |l.s.windows|, l.k);
  }

  /** What a turn leads to: one more window, */
  lemma TurnKeeps(clock: nat -> nat, start: nat, l: Loop, w: nat, budget: nat, maxOps: nat)
    requires Monotone(clock) && l.s.More(budget, maxOps) && AtTop(clock, start, l, budget, maxOps)
    requires w == Window(clock, l.k) && w >= MIN_WINDOW_NS && l.t0 <= clock(l.k + 2)
    ensures AtTop(clock, start, KeptNext(clock, l, w), budget, maxOps)
    ensures |KeptNext(clock, l, w).s.windows| == |l.s.windows| + 1 <= MaxKept(budget)
  {
    NextWindow(clock, start, l.s, l.k, l.batch, budget, maxOps);
    KeepStep(clock, start, l, w, budget, maxOps);
  }

  /** or one more era cut short, */
  lemma TurnCuts(clock: nat -> nat, k0: nat, e: nat, cuts: Eras, start: nat, last: nat, l: Loop, budget: nat, maxOps: nat)
    returns (cuts': Eras, start': nat, last': nat)
    requires Monotone(clock) && l.s.More(budget, maxOps) && Window(clock, l.k) < MIN_WINDOW_NS && l.batch < MAX_BATCH
    requires CutTo(clock, k0, e, cuts, start, last, l.batch, budget, maxOps) && AtTop(clock, start, l, budget, maxOps)
    ensures CutTo(clock, k0, e, cuts', start', last', CutNext(clock, l).batch, budget, maxOps)
    ensures AtTop(clock, start', CutNext(clock, l), budget, maxOps) && cuts'.Count() == cuts.Count() + 1
  {
    NextWindow(clock, start, l.s, l.k, l.batch, budget, maxOps);
    Ceiling(last);
    cuts', start', last' := CutStep(clock, k0, e, cuts, start, last, l, budget, maxOps);
  }

  /** or the breach. */
  lemma TurnBreaches(clock: nat -> nat, start: nat, last: nat, l: Loop, budget: nat, maxOps: nat)
    requires Monotone(clock) && l.s.More(budget, maxOps) && Window(clock, l.k) < MIN_WINDOW_NS && l.batch >= MAX_BATCH
    requires l.batch == Pow2(last) && last <= 20 && AtTop(clock, start, l, budget, maxOps)
    ensures Breached(clock, start, last, l, Window(clock, l.k), budget, maxOps)
  {
    NextWindow(clock, start, l.s, l.k, l.batch, budget, maxOps);
    Ceiling(last);
  }

  /**
   Sample from a batch of 2^`e`, reading the clock from `k0` on. `short` is the window that was too
   short at the ceiling, or -1; `cuts` are the eras that were cut short below it.
   */
  method Sample(clock: nat -> nat, k0: nat, batch0: nat, budget: nat, maxOps: nat, ghost e: nat)
    returns (l: Loop, short: int, ghost cuts: Eras, ghost start: nat, ghost last: nat)
    requires Monotone(clock) && batch0 == Pow2(e) && e <= 20
    ensures CutTo(clock, k0, e, cuts, start, last, l.batch, budget, maxOps) && l.recalibrations == cuts.Count()
    ensures AtTop(clock, start, l, budget, maxOps)
    ensures short >= 0 ==> Breached(clock, start, last, l, short, budget, maxOps)
    ensures short < 0 ==> Completes(clock, start, |l.s.windows|, l.batch, budget, maxOps)
    ensures if short >= 0 then l.batch == MAX_BATCH && short < MIN_WINDOW_NS else !l.s.More(budget, maxOps)
  {
    l, short, cuts, start, last := Loop(NONE_KEPT, batch0, 0, k0 + 1, clock(k0)), -1, First, k0 + 1, e;
    AtTopFirst(clock, k0, batch0, 0, budget, maxOps);
    while l.s.More(budget, maxOps)
      invariant CutTo(clock, k0, e, cuts, start, last, l.batch, budget, maxOps) && l.recalibrations == cuts.Count()
      invariant AtTop(clock, start, l, budget, maxOps) && short < 0
      decreases 20 - cuts.Count(), MaxKept(budget) - |l.s.windows|
    {
      TurnDefined(clock, start, l, budget, maxOps);
      ghost var before := l;
      l, short := Turn(clock, l);
      if Window(clock, before.k) >= MIN_WINDOW_NS {
        TurnKeeps(clock, start, before, Window(clock, before.k), budget, maxOps);
      } else if before.batch < MAX_BATCH {
        cuts, start, last := TurnCuts(clock, k0, e, cuts, start, last, before, budget, maxOps);
      } else {
        TurnBreaches(clock, start, last, before, budget, maxOps);
      }
      if short >= 0 { return; }
    }
    NextWindow(clock, start, l.s, l.k, l.batch, budget, maxOps);
  }

  /** The figures of the kept windows. */
  function Figures(ws: seq<nat>, batch: nat, minWindow: nat, recalibrations: nat, ops: nat, total: nat): Timing
    requires ws != [] && batch > 0
  {
    var n := |ws|;
    Timing(batch, n, minWindow, recalibrations, ops, total,
           PerOpPs(Sort(ws)[if n - 1 < n / 2 then n - 1 else n / 2], batch), SumPs(ws, batch) / n as real,
           if total > 0 then ops as real * 1000000000.0 / total as real else 0.0)
  }

  /**
   The median figure is the order statistic of the kept windows at `n / 2`, and the mean is their
   total over batch and count.
   */
  lemma FiguresMeaning(ws: seq<nat>, batch: nat, minWindow: nat, recalibrations: nat, ops: nat, total: nat, v: nat)
    requires ws != [] && batch > 0
    ensures var t := Figures(ws, batch, minWindow, recalibrations, ops, total);
            && t.meanPs == PerOpPs(Sum(ws), batch) / |ws| as real
            && (t.p50Ps == PerOpPs(v, batch) <==> CountBelow(ws, v) <= |ws| / 2 < CountBelow(ws, v + 1))
  {
    SumPsIsTotal(ws, batch);
    var m := Sort(ws)[|ws| / 2];
    OrderStatistic(ws, |ws| / 2, v);
    PerOpOrder(m, v, batch);
    PerOpOrder(v, m, batch);
  }

  /**
   What happens in a run: the calibration gives 2^`e` and leaves off at reading `c`, sampling begins at
   reading `k`, the eras of `cuts` are cut short, and the last one, from reading `start` on at a batch of 2^`last`, ends after `n`
   windows.
   */
  datatype History = History(c: nat, k: nat, e: nat, cuts: Eras, start: nat, last: nat, n: nat)

  /** Readings between the calibration and the sampling: they size a reservation, which no figure depends on. */
  const RESERVE_READINGS: nat := 6

  ghost predicate Happened(clock: nat -> nat, h: History, aborted: bool, budget: nat, maxOps: nat) {
    && CalibratedAt(clock, 0, TARGET_NS, Pow2(h.e), h.c, h.e) && h.k == h.c + RESERVE_READINGS
    && AllCut(clock, h.k, h.e, h.cuts, budget, maxOps)
    && h.start == h.cuts.Start(h.k) && h.last == h.e + h.cuts.Count() <= 20
    && Ends(clock, h.start, h.n, h.last, aborted, budget, maxOps)
  }

  /** What is reported of it: the window that was too short at the ceiling, or the windows of the last era. */
  ghost predicate Shows(clock: nat -> nat, h: History, r: Outcome)
    requires h.start > 0
  {
    match r
    case Aborted(window, batch) => batch == MAX_BATCH && window == WindowAt(clock, h.start, h.n)
    case Timed(t, ws) =>
      && t.batch == Pow2(h.last) && t.recalibrations == h.cuts.Count() && |ws| == h.n
      && FromClock(clock, h.start, Kept(ws, t.minWindow, t.ops, t.total))
  }

  ghost predicate Led(clock: nat -> nat, budget: nat, maxOps: nat, r: Outcome) {
    exists h: History :: Happened(clock, h, r.Aborted?, budget, maxOps) && Shows(clock, h, r)
  }

  lemma AbortedLed(clock: nat -> nat, budget: nat, maxOps: nat, short: nat,
                   c: nat, k: nat, e: nat, cuts: Eras, start: nat, last: nat, l: Loop)
    requires CalibratedAt(clock, 0, TARGET_NS, Pow2(e), c, e) && k == c + RESERVE_READINGS
    requires CutTo(clock, k, e, cuts, start, last, l.batch, budget, maxOps)
    requires Breached(clock, start, last, l, short, budget, maxOps)
    ensures Led(clock, budget, maxOps, Aborted(short, l.batch))
  {
    var h := History(c, k, e, cuts, start, last, |l.s.windows|);
    assert Happened(clock, h, true, budget, maxOps) && Shows(clock, h, Aborted(short, l.batch));
  }

  /** The row of a completed loop. */
  function Row(l: Loop): Outcome
    requires l.s.windows != [] && l.batch > 0
  {
    Timed(Figures(l.s.windows, l.batch, l.s.minWindow, l.recalibrations, l.s.ops, l.s.total), l.s.windows)
  }

  lemma RowFields(l: Loop)
    requires l.s.windows != [] && l.batch > 0
    ensures var t := Row(l).timing;
            && t.batch == l.batch && t.minWindow == l.s.minWindow && t.recalibrations == l.recalibrations
            && t.ops == l.s.ops && t.total == l.s.total
            && t == Figures(Row(l).windows, t.batch, t.minWindow, t.recalibrations, t.ops, t.total)
  {
  }

  lemma TimedLed(clock: nat -> nat, budget: nat, maxOps: nat,
                 c: nat, k: nat, e: nat, cuts: Eras, start: nat, last: nat, l: Loop)
    requires CalibratedAt(clock, 0, TARGET_NS, Pow2(e), c, e) && k == c + RESERVE_READINGS
    requires CutTo(clock, k, e, cuts, start, last, l.batch, budget, maxOps)
    requires start > 0 && FromClock(clock, start, l.s) && l.recalibrations == cuts.Count()
    requires Completes(clock, start, |l.s.windows|, l.batch, budget, maxOps)
    ensures |l.s.windows| >= MIN_SAMPLES && Led(clock, budget, maxOps, Row(l))
  {
    RowFields(l);
    var h := History(c, k, e, cuts, start, last, |l.s.windows|);
    assert Happened(clock, h, false, budget, maxOps) && Shows(clock, h, Row(l));
  }

  /** What a row says is what its windows amount to. */
  ghost predicate RowRight(t: Timing, ws: seq<nat>, budget: nat) {
    && |ws| >= MIN_SAMPLES && t.batch > 0 && Era(ws, t.batch, t.minWindow, t.ops, t.total, budget)
    && t == Figures(ws, t.batch, t.minWindow, t.recalibrations, t.ops, t.total)
  }

  lemma Concluded(clock: nat -> nat, budget: nat, maxOps: nat,
                  c: nat, k: nat, e: nat, cuts: Eras, start: nat, last: nat, l: Loop)
    requires CalibratedAt(clock, 0, TARGET_NS, Pow2(e), c, e) && k == c + RESERVE_READINGS
    requires CutTo(clock, k, e, cuts, start, last, l.batch, budget, maxOps)
    requires Monotone(clock) && AtTop(clock, start, l, budget, maxOps) && l.recalibrations == cuts.Count()
    requires Completes(clock, start, |l.s.windows|, l.batch, budget, maxOps)
    ensures l.s.windows != [] && l.batch > 0
    ensures Led(clock, budget, maxOps, Row(l)) && RowRight(Row(l).timing, Row(l).windows, budget)
  {
    SampledEra(clock, start, l.s, l.batch, budget, maxOps);
    TimedLed(clock, budget, maxOps, c, k, e, cuts, start, last, l);
    RowFields(l);
  }

  /**
   Time the operation in batches until the budget is spent or `maxOps` have run, and never before
   16 windows. A short window doubles the batch and starts over; at the ceiling it aborts the run.
   */
  method TimeBatches(clock: nat -> nat, budget: nat, maxOps: nat) returns (r: Outcome)
    requires Monotone(clock)
    ensures Led(clock, budget, maxOps, r)
    ensures r.Aborted? ==> r.batch == MAX_BATCH && r.window < MIN_WINDOW_NS
    ensures r.Timed? ==> RowRight(r.timing, r.windows, budget)
  {
    var batch0, c := CalibrateBatchForWindow(clock, 0, TARGET_NS);
    ghost var e :| CalibratedAt(clock, 0, TARGET_NS, batch0, c, e);
    var k := c + RESERVE_READINGS;
    var l, short, cuts, start, last := Sample(clock, k, batch0, budget, maxOps, e);
    if short >= 0 {
      AbortedLed(clock, budget, maxOps, short, c, k, e, cuts, start, last, l);
      r := Aborted(short, l.batch);
    } else {
      Concluded(clock, budget, maxOps, c, k, e, cuts, start, last, l);
      r := Row(l);
    }
  }

  // --- The clock decides ----------------------------------------------------------------------

  lemma {:induction false} ShortBefore(clock: nat -> nat, k: nat, e: nat, target: nat, j: nat)
    requires AllShort(clock, k, e, target) && j < e
    ensures Window(clock, k + 2 * j) < target
  {
    if j < e - 1 { ShortBefore(clock, k, e - 1, target, j); }
  }

  lemma CalibratedOnce(clock: nat -> nat, target: nat, k: nat, e: nat, k': nat, e': nat)
    requires CalibratedAt(clock, 0, target, Pow2(e), k, e) && CalibratedAt(clock, 0, target, Pow2(e'), k', e')
    ensures e == e' && k == k'
  {
    if e < e' { ShortBefore(clock, 0, e', target, e); }
    if e' < e { ShortBefore(clock, 0, e, target, e'); }
  }

  /** A loop that goes on after `n` windows went on after each fewer. */
  lemma WentOn(clock: nat -> nat, start: nat, m: nat, n: nat, batch: nat, budget: nat, maxOps: nat)
    requires Monotone(clock) && start > 0 && m <= n && GoesOn(clock, start, n, batch, budget, maxOps)
    ensures GoesOn(clock, start, m, batch, budget, maxOps)
  {
    assert NotBefore(clock, start + 3 * m - 1, start + 3 * n - 1);
    OpsGrow(m, n, batch);
  }

  /** An era is cut short in one place only, and if so does not complete. */
  lemma CutOnce(clock: nat -> nat, start: nat, n: nat, m: nat, batch: nat, budget: nat, maxOps: nat)
    requires Monotone(clock) && start > 0 && CutShort(clock, start, n, batch, budget, maxOps)
    ensures CutShort(clock, start, m, batch, budget, maxOps) ==> m == n
    ensures !Completes(clock, start, m, batch, budget, maxOps)
  {
    if m <= n { WentOn(clock, start, m, n, batch, budget, maxOps); }
    assert WindowAt(clock, start, n) < MIN_WINDOW_NS;
    assert m < n && AllLong(clock, start, n) ==> WindowAt(clock, start, m) >= MIN_WINDOW_NS;
  }

  lemma CompletesOnce(clock: nat -> nat, start: nat, n: nat, m: nat, batch: nat, budget: nat, maxOps: nat)
    requires Monotone(clock) && start > 0
    requires Completes(clock, start, n, batch, budget, maxOps) && Completes(clock, start, m, batch, budget, maxOps)
    ensures m == n
  {
    if m < n { WentOn(clock, start, m, n - 1, batch, budget, maxOps); }
    if n < m { WentOn(clock, start, n, m - 1, batch, budget, maxOps); }
  }

  /** `a` is `b` or an earlier part of it. */
  ghost predicate Within(a: Eras, b: Eras) {
    a == b || (b.Cut? && Within(a, b.before))
  }

  lemma {:induction false} WithinCount(a: Eras, b: Eras)
    requires Within(a, b)
    ensures a.Count() <= b.Count() && (a.Count() == b.Count() ==> a == b)
    decreases b
  {
    if a != b { WithinCount(a, b.before); }
  }

  /** Each era that was cut short is where it is because of the clock. */
  lemma {:induction false} CutsOnce(clock: nat -> nat, k: nat, e: nat, a: Eras, b: Eras, budget: nat, maxOps: nat)
    requires Monotone(clock) && a.Count() <= b.Count()
    requires AllCut(clock, k, e, a, budget, maxOps) && AllCut(clock, k, e, b, budget, maxOps)
    ensures Within(a, b)
    decreases b
  {
    if a.Count() < b.Count() {
      CutsOnce(clock, k, e, a, b.before, budget, maxOps);
    } else if b.Cut? {
      CutsOnce(clock, k, e, a.before, b.before, budget, maxOps);
      WithinCount(a.before, b.before);
      CutOnce(clock, b.before.Start(k), b.kept, a.kept, Pow2(e + b.before.Count()), budget, maxOps);
    }
  }

  /** An era with others after it was cut short. */
  lemma {:induction false} NextCut(clock: nat -> nat, k: nat, e: nat, a: Eras, b: Eras, budget: nat, maxOps: nat) returns (n: nat)
    requires AllCut(clock, k, e, b, budget, maxOps) && Within(a, b) && a != b
    ensures CutShort(clock, a.Start(k), n, Pow2(e + a.Count()), budget, maxOps)
    decreases b
  {
    if b.before == a { n := b.kept; } else { n := NextCut(clock, k, e, a, b.before, budget, maxOps); }
  }

  /** An era that is cut short below the ceiling does not end. */
  lemma CutDoesNotEnd(clock: nat -> nat, start: nat, m: nat, n: nat, exponent: nat, aborted: bool, budget: nat, maxOps: nat)
    requires Monotone(clock) && start > 0 && exponent < 20 && CutShort(clock, start, m, Pow2(exponent), budget, maxOps)
    ensures !Ends(clock, start, n, exponent, aborted, budget, maxOps)
  {
    CutOnce(clock, start, m, n, Pow2(exponent), budget, maxOps);
  }

  /** An era that ends has none after it. */
  lemma SameCuts(clock: nat -> nat, k: nat, e: nat, a: Eras, b: Eras, start: nat, last: nat, n: nat, aborted: bool,
                 budget: nat, maxOps: nat)
    requires Monotone(clock) && a.Count() <= b.Count() && e + b.Count() <= 20 && start == a.Start(k) && last == e + a.Count()
    requires AllCut(clock, k, e, a, budget, maxOps) && AllCut(clock, k, e, b, budget, maxOps)
    requires Ends(clock, start, n, last, aborted, budget, maxOps)
    ensures a == b
  {
    CutsOnce(clock, k, e, a, b, budget, maxOps);
    WithinCount(a, b);
    if a != b {
      var m := NextCut(clock, k, e, a, b, budget, maxOps);
      CutDoesNotEnd(clock, start, m, n, last, aborted, budget, maxOps);
    }
  }

  lemma EndsOnce(clock: nat -> nat, start: nat, m: nat, n: nat, exponent: nat, x: bool, y: bool, budget: nat, maxOps: nat)
    requires Monotone(clock) && start > 0
    requires Ends(clock, start, m, exponent, x, budget, maxOps) && Ends(clock, start, n, exponent, y, budget, maxOps)
    ensures m == n && x == y
  {
    if x {
      CutOnce(clock, start, m, n, Pow2(exponent), budget, maxOps);
    } else if y {
      CutOnce(clock, start, n, m, Pow2(exponent), budget, maxOps);
    } else {
      CompletesOnce(clock, start, m, n, Pow2(exponent), budget, maxOps);
    }
  }

  lemma SameEnd(clock: nat -> nat, k: nat, e: nat, a: History, x: bool, b: History, y: bool, budget: nat, maxOps: nat)
    requires Monotone(clock) && a.cuts.Count() <= b.cuts.Count() && b.last <= 20
    requires a.start == a.cuts.Start(k) && a.last == e + a.cuts.Count()
    requires b.start == b.cuts.Start(k) && b.last == e + b.cuts.Count()
    requires AllCut(clock, k, e, a.cuts, budget, maxOps) && AllCut(clock, k, e, b.cuts, budget, maxOps)
    requires Ends(clock, a.start, a.n, a.last, x, budget, maxOps) && Ends(clock, b.start, b.n, b.last, y, budget, maxOps)
    ensures a.cuts == b.cuts && a.n == b.n && x == y
  {
    SameCuts(clock, k, e, a.cuts, b.cuts, a.start, a.last, a.n, x, budget, maxOps);
    EndsOnce(clock, a.start, a.n, b.n, a.last, x, y, budget, maxOps);
  }

  /** A clock has one history. */
  lemma HappenedOnce(clock: nat -> nat, a: History, x: bool, b: History, y: bool, budget: nat, maxOps: nat)
    requires Monotone(clock) && Happened(clock, a, x, budget, maxOps) && Happened(clock, b, y, budget, maxOps)
    ensures a == b && x == y
  {
    CalibratedOnce(clock, TARGET_NS, a.c, a.e, b.c, b.e);
    assert a.k == b.k;
    if a.cuts.Count() <= b.cuts.Count() {
      SameEnd(clock, a.k, a.e, a, x, b, y, budget, maxOps);
    } else {
      SameEnd(clock, a.k, a.e, b, y, a, x, budget, maxOps);
    }
  }

  /** The minimum of windows that have one is one only. */
  lemma FlooredOnce(ws: seq<nat>, m: nat, m': nat)
    requires ws != [] && Floored(ws, m) && Floored(ws, m')
    ensures m == m'
  {
    var i :| 0 <= i < |ws| && ws[i] == m;
    var j :| 0 <= j < |ws| && ws[j] == m';
  }

  lemma RowOnce(clock: nat -> nat, start: nat, t: Timing, ws: seq<nat>, t': Timing, ws': seq<nat>, budget: nat)
    requires start > 0 && |ws| == |ws'| && RowRight(t, ws, budget) && RowRight(t', ws', budget)
    requires t.batch == t'.batch && t.recalibrations == t'.recalibrations
    requires FromClock(clock, start, Kept(ws, t.minWindow, t.ops, t.total))
    requires FromClock(clock, start, Kept(ws', t'.minWindow, t'.ops, t'.total))
    ensures t == t' && ws == ws'
  {
    assert ws == ws' by {
      forall i | 0 <= i < |ws| ensures ws[i] == ws'[i] {
        assert Kept(ws, t.minWindow, t.ops, t.total).windows[i] == WindowAt(clock, start, i);
        assert Kept(ws', t'.minWindow, t'.ops, t'.total).windows[i] == WindowAt(clock, start, i);
      }
    }
    FlooredOnce(ws, t.minWindow, t'.minWindow);
  }

  /** One history has one outcome. */
  lemma ShowsOnce(clock: nat -> nat, h: History, r: Outcome, r': Outcome, budget: nat)
    requires h.start > 0 && Shows(clock, h, r) && Shows(clock, h, r') && r.Aborted? == r'.Aborted?
    requires r.Timed? ==> RowRight(r.timing, r.windows, budget)
    requires r'.Timed? ==> RowRight(r'.timing, r'.windows, budget)
    ensures r == r'
  {
    if r.Timed? {
      RowOnce(clock, h.start, r.timing, r.windows, r'.timing, r'.windows, budget);
    }
  }

  /**
   The clock decides everything: two outcomes that a clock leads to, with rows that are right, are one
   and the same, abort or not, window for window and figure for figure.
   */
  lemma OutcomeUnique(clock: nat -> nat, budget: nat, maxOps: nat, r: Outcome, r': Outcome)
    requires Monotone(clock) && Led(clock, budget, maxOps, r) && Led(clock, budget, maxOps, r')
    requires r.Timed? ==> RowRight(r.timing, r.windows, budget)
    requires r'.Timed? ==> RowRight(r'.timing, r'.windows, budget)
    ensures r == r'
  {
    var h: History :| Happened(clock, h, r.Aborted?, budget, maxOps) && Shows(clock, h, r);
    var h': History :| Happened(clock, h', r'.Aborted?, budget, maxOps) && Shows(clock, h', r');
    HappenedOnce(clock, h, r.Aborted?, h', r'.Aborted?, budget, maxOps);
    ShowsOnce(clock, h, r, r', budget);
  }

  /** An abort was made by a window of the last era that is too short, and a recalibration by one of its own. */
  lemma ShortWindowBehind(clock: nat -> nat, h: History, aborted: bool, budget: nat, maxOps: nat) returns (start: nat, n: nat)
    requires Happened(clock, h, aborted, budget, maxOps) && (aborted || h.cuts.Cut?)
    ensures WindowAt(clock, start, n) < MIN_WINDOW_NS
    ensures aborted ==> start == h.start && n == h.n
  {
    if aborted { start, n := h.start, h.n; } else { start, n := h.cuts.before.Start(h.k), h.cuts.kept; }
  }

  /** A clock whose every window is long enough neither aborts a run nor makes it start over. */
  lemma LongWindows(clock: nat -> nat, budget: nat, maxOps: nat, r: Outcome)
    requires Led(clock, budget, maxOps, r) && forall start: nat, n: nat :: WindowAt(clock, start, n) >= MIN_WINDOW_NS
    ensures r.Timed? && r.timing.recalibrations == 0
  {
    var h: History :| Happened(clock, h, r.Aborted?, budget, maxOps) && Shows(clock, h, r);
    if r.Aborted? || h.cuts.Cut? {
      var start, n := ShortWindowBehind(clock, h, r.Aborted?, budget, maxOps);
    }
  }
}
