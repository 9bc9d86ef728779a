/**
 * The allocation guard gate: an injector that refuses every request above a size, and a sweep that
 * re-runs an operation once for each size it was seen to ask for, counting the runs that throw.
 */
module FailableCensus {
  import NumberSet

  const SIZE_MAX: nat := 0xFFFF_FFFF_FFFF_FFFF

  /**
   * An operation, by what it asks of the heap. A refused request that may throw ends it with a
   * `bad_alloc`; any other refusal is handled, and the operation goes on as `refused` says.
   */
  datatype Op = Done | Ask(size: nat, throwing: bool, served: Op, refused: Op)

  /** The sizes asked for when every request above `max` is refused. */
  function Trace(op: Op, max: nat): seq<nat> {
    match op
    case Done => []
    case Ask(size, throwing, served, refused) =>
      [size] + if size <= max then Trace(served, max) else if throwing then [] else Trace(refused, max)
  }

  /** A `bad_alloc` leaves the operation when every request above `max` is refused. */
  predicate Escapes(op: Op, max: nat) {
    match op
    case Done => false
    case Ask(size, throwing, served, refused) =>
      if size <= max then Escapes(served, max) else throwing || Escapes(refused, max)
  }

  /** Every request the operation can make, on any path, is one that `p` holds of. */
  ghost predicate AllSizes(op: Op, p: nat -> bool) {
    op.Ask? ==> p(op.size) && AllSizes(op.served, p) && AllSizes(op.refused, p)
  }

  ghost predicate Sized(op: Op) {
    AllSizes(op, s => s <= SIZE_MAX)
  }

  /** The sizes seen when nothing is refused. */
  function Log(op: Op): seq<nat> {
    Trace(op, SIZE_MAX)
  }

  /** The observed sizes at which the sweep sees an escape. */
  ghost function EscapeSizes(op: Op): set<nat> {
    set s | s in Log(op) && s != 0 && Escapes(op, s - 1)
  }

  lemma TraceStep(log: seq<nat>, size: nat, rest: seq<nat>, op: Op, max: nat)
    requires op.Ask? && size == op.size
    requires rest == if size <= max then Trace(op.served, max) else if op.throwing then [] else Trace(op.refused, max)
    ensures Trace(op, max) == [size] + rest && log + Trace(op, max) == log + [size] + rest
  {
  }

  // --- The injector -----------------------------------------------------------------------------

  /** The counters behind `operator new`; `logging` is whether a log is attached. */
  class Injector {
    var armed: bool
    var allocs: nat
    var bytes: nat
    var maxAlloc: nat
    var logging: bool
    var log: seq<nat>

    constructor ()
      ensures !armed && maxAlloc == SIZE_MAX && !logging && log == []
    {
      armed, allocs, bytes, maxAlloc, logging, log := false, 0, 0, SIZE_MAX, false, [];
    }

    /** Open an armed scope. */
    method Arm(max: nat, keepLog: bool)
      modifies this
      ensures armed && allocs == 0 && bytes == 0 && maxAlloc == max && logging == keepLog && log == old(log)
    {
      allocs, bytes, maxAlloc, logging, armed := 0, 0, max, keepLog, true;
    }

    /** Close it, on every way out. */
    method Disarm()
      modifies this
      ensures !armed && maxAlloc == SIZE_MAX && !logging && allocs == old(allocs) && bytes == old(bytes) && log == old(log)
    {
      armed, maxAlloc, logging := false, SIZE_MAX, false;
    }

    /** One request; false is a refusal. */
    method CountedAlloc(size: nat) returns (served: bool)
      modifies `allocs, `bytes, `log
      ensures served == (!armed || size <= maxAlloc)
      ensures allocs == old(allocs) + (if armed then 1 else 0) && bytes == old(bytes) + if armed then size else 0
      ensures log == old(log) + if armed && logging then [size] else []
    {
      if armed {
        allocs := allocs + 1;
        bytes := bytes + size;
        if logging { log := log + [size]; }
        if size > maxAlloc { return false; }
      }
      return true;
    }

    /** Perform the operation once under the injector. */
    method Perform(op: Op) returns (threw: bool)
      requires armed
      modifies `allocs, `bytes, `log
      ensures threw == Escapes(op, maxAlloc)
      ensures allocs == old(allocs) + |Trace(op, maxAlloc)|
      ensures log == old(log) + if logging then Trace(op, maxAlloc) else []
      decreases op
    {
      if op.Done? { return false; }
      var served := CountedAlloc(op.size);
      ghost var next := if served then op.served else if op.throwing then Done else op.refused;
      TraceStep(old(log), op.size, Trace(next, maxAlloc), op, maxAlloc);
      if served {
        threw := Perform(op.served);
      } else if op.throwing {
        threw := true;
      } else {
        threw := Perform(op.refused);
      }
    }

    /** One run inside its own armed scope. */
    method Try(op: Op, max: nat, keepLog: bool) returns (threw: bool)
      modifies this
      ensures threw == Escapes(op, max) && allocs == |Trace(op, max)|
      ensures log == old(log) + if keepLog then Trace(op, max) else []
    {
      Arm(max, keepLog);
      threw := Perform(op);
      Disarm();
    }
  }

  // --- The sweep --------------------------------------------------------------------------------

  datatype Want = Guarded | NoAlloc | Unguarded

  predicate Met(want: Want, n: nat, escaped: nat) {
    match want
    case Unguarded => escaped > 0
    case NoAlloc => n == 0 && escaped == 0
    case Guarded => escaped == 0
  }

  datatype Report = Report(allocs: nat, sizes: nat, escaped: nat, firstEscape: nat, ok: bool)

  /** `first` is the least of `ss`, or 0 when there is none. */
  ghost predicate LeastOrZero(ss: set<nat>, first: nat) {
    (first == 0 <==> ss == {}) && (first != 0 ==> first in ss && forall s :: s in ss ==> first <= s)
  }

  /** The escapes among the first `i` sizes. */
  ghost function EscapesIn(op: Op, sizes: seq<nat>, i: nat): set<nat>
    requires i <= |sizes|
  {
    set s | s in sizes[..i] && s != 0 && Escapes(op, s - 1)
  }

  lemma EscapesInStep(op: Op, sizes: seq<nat>, i: nat)
    requires i < |sizes| && NumberSet.Ascending(sizes)
    ensures var s, more := sizes[i], EscapesIn(op, sizes, i + 1);
            && s !in EscapesIn(op, sizes, i) && (forall x :: x in EscapesIn(op, sizes, i) ==> x < s)
            && more == EscapesIn(op, sizes, i) + if s != 0 && Escapes(op, s - 1) then {s} else {}
  {
    assert sizes[..i + 1] == sizes[..i] + [sizes[i]];
  }

  lemma AddLargest(ss: set<nat>, first: nat, s: nat)
    requires LeastOrZero(ss, first) && s != 0 && forall x :: x in ss ==> x < s
    ensures |ss + {s}| == |ss| + 1 && LeastOrZero(ss + {s}, if first == 0 then s else first)
  {
  }

  /** The counts of the escapes among the first `i` sizes. */
  ghost predicate Swept(op: Op, sizes: seq<nat>, i: nat, escaped: nat, first: nat) {
    i <= |sizes| && escaped == |EscapesIn(op, sizes, i)| && LeastOrZero(EscapesIn(op, sizes, i), first)
  }

  lemma CountStep(ss: set<nat>, more: set<nat>, s: nat, hit: bool, escaped: nat, first: nat)
    requires escaped == |ss| && LeastOrZero(ss, first) && (forall x :: x in ss ==> x < s) && (hit ==> s != 0)
    requires more == ss + if hit then {s} else {}
    ensures |more| == (if hit then escaped + 1 else escaped) && LeastOrZero(more, if hit && first == 0 then s else first)
  {
    if hit { AddLargest(ss, first, s); } else { assert more == ss; }
  }

  lemma SweptStep(op: Op, sizes: seq<nat>, i: nat, escaped: nat, first: nat, hit: bool)
    requires NumberSet.Ascending(sizes) && i < |sizes| && Swept(op, sizes, i, escaped, first)
    requires hit == (sizes[i] != 0 && Escapes(op, sizes[i] - 1))
    ensures Swept(op, sizes, i + 1, if hit then escaped + 1 else escaped, if hit && first == 0 then sizes[i] else first)
  {
    EscapesInStep(op, sizes, i);
    CountStep(EscapesIn(op, sizes, i), EscapesIn(op, sizes, i + 1), sizes[i], hit, escaped, first);
  }

  /** Deny a block of `s` bytes, unless there is none to deny, and see whether the failure escapes. */
  method Deny(inj: Injector, op: Op, s: nat) returns (threw: bool)
    modifies inj
    ensures threw == (s != 0 && Escapes(op, s - 1))
  {
    threw := false;
    if s != 0 { threw := inj.Try(op, s - 1, false); }
  }

  /** Deny each size in turn and see whether the failure escapes. */
  method Sweep(inj: Injector, op: Op, sizes: seq<nat>) returns (escaped: nat, firstEscape: nat)
    requires NumberSet.Ascending(sizes)
    modifies inj
    ensures Swept(op, sizes, |sizes|, escaped, firstEscape)
  {
    escaped, firstEscape := 0, 0;
    for i := 0 to |sizes|
      invariant Swept(op, sizes, i, escaped, firstEscape)
    {
      var s := sizes[i];
      var threw := Deny(inj, op, s);
      SweptStep(op, sizes, i, escaped, firstEscape, threw);
      if threw {
        escaped := escaped + 1;
        if firstEscape == 0 { firstEscape := s; }
      }
    }
  }

  /**
   * Drive one arm: learn its requests, refusing nothing, then sweep their distinct sizes. The number
   * of escapes is the number of sizes that escape, and the first is the least of them.
   */
  method RunArm(op: Op, want: Want) returns (r: Report)
    requires Sized(op)
    ensures r.allocs == |Log(op)| && r.sizes == |NumberSet.SortedSet(Log(op))|
    ensures r.escaped == |EscapeSizes(op)| && LeastOrZero(EscapeSizes(op), r.firstEscape)
    ensures r.ok == Met(want, r.allocs, r.escaped)
  {
    var inj := new Injector();
    var _ := inj.Try(op, SIZE_MAX, true);
    var n := inj.allocs;
    assert inj.log == Log(op);
    var sizes := NumberSet.SortedSet(inj.log);
    NumberSet.SortedSetKeeps(inj.log);
    var escaped, firstEscape := Sweep(inj, op, sizes);
    assert sizes[..|sizes|] == sizes;
    assert EscapesIn(op, sizes, |sizes|) == EscapeSizes(op);
    r := Report(n, |sizes|, escaped, firstEscape, Met(want, n, escaped));
  }

  // --- What a pass means ------------------------------------------------------------------------

  /** Every size the operation can ask for, on any path, it asks for when nothing is refused. */
  ghost predicate Closed(op: Op) {
    AllSizes(op, s => s in Log(op))
  }

  /** No threshold whatever makes the operation throw. */
  ghost predicate NeverEscapes(op: Op) {
    forall m: nat :: !Escapes(op, m)
  }

  /** Two thresholds that no size lies between refuse the same requests. */
  lemma {:induction false} SameRefusals(op: Op, p: nat -> bool, m: nat, m': nat)
    requires AllSizes(op, p) && forall s: nat :: p(s) ==> (s <= m <==> s <= m')
    ensures Escapes(op, m) == Escapes(op, m')
  {
    if op.Ask? {
      SameRefusals(op.served, p, m, m');
      SameRefusals(op.refused, p, m, m');
    }
  }

  lemma {:induction false} NothingRefused(op: Op, p: nat -> bool, m: nat)
    requires AllSizes(op, p) && forall s: nat :: p(s) ==> s <= m
    ensures !Escapes(op, m)
  {
    if op.Ask? { NothingRefused(op.served, p, m); }
  }

  /** The least observed size above `m`. */
  lemma {:induction false} LeastAbove(log: seq<nat>, m: nat) returns (s: nat)
    requires exists x :: x in log && x > m
    ensures s in log && s > m && forall x :: x in log && x > m ==> s <= x
  {
    var n := |log| - 1;
    assert log == log[..n] + [log[n]];
    if exists x :: x in log[..n] && x > m {
      var t := LeastAbove(log[..n], m);
      s := if log[n] > m && log[n] < t then log[n] else t;
    } else {
      s := log[n];
    }
  }

  /** Every size the operation can ask for, on any path. */
  function Asked(op: Op): seq<nat> {
    match op
    case Done => []
    case Ask(size, _, served, refused) => [size] + Asked(served) + Asked(refused)
  }

  lemma {:induction false} AskedIsAll(op: Op, p: nat -> bool)
    requires forall s :: s in Asked(op) ==> p(s)
    ensures AllSizes(op, p)
  {
    if op.Ask? {
      assert op.size in Asked(op);
      AskedIsAll(op.served, p);
      AskedIsAll(op.refused, p);
    }
  }

  lemma {:induction false} TraceIsAsked(op: Op, max: nat, s: nat)
    requires s in Trace(op, max)
    ensures s in Asked(op)
  {
    if s != op.size {
      if op.size <= max {
        assert s in Trace(op.served, max);
        TraceIsAsked(op.served, max, s);
      } else {
        assert s in Trace(op.refused, max);
        TraceIsAsked(op.refused, max, s);
      }
    }
  }

  /** An escape at any threshold is one just below some size that the operation can ask for. */
  lemma EscapeAtASize(op: Op, m: nat) returns (s: nat)
    requires Escapes(op, m)
    ensures s in Asked(op) && s != 0 && Escapes(op, s - 1)
  {
    var p := s => s in Asked(op);
    AskedIsAll(op, p);
    assert exists x :: x in Asked(op) && x > m by {
      if forall x :: x in Asked(op) ==> x <= m { NothingRefused(op, p, m); }
    }
    s := LeastAbove(Asked(op), m);
    SameRefusals(op, p, m, s - 1);
  }

  /** The sizes the sweep does not try, and at which the operation throws. */
  ghost predicate Unseen(op: Op, s: nat) {
    s in Asked(op) && s !in Log(op) && s != 0 && Escapes(op, s - 1)
  }

  /** No threshold makes the operation throw exactly when none just below a size it can ask for does. */
  lemma NeverEscapesIff(op: Op)
    ensures NeverEscapes(op) <==> forall s :: s in Asked(op) && s != 0 ==> !Escapes(op, s - 1)
  {
    if !NeverEscapes(op) {
      var m: nat :| Escapes(op, m);
      var s := EscapeAtASize(op, m);
    } else {
      forall s | s in Asked(op) && s != 0 ensures !Escapes(op, s - 1) {
        var m: nat := s - 1;
        assert !Escapes(op, m);
      }
    }
  }

  /**
   * A sweep of the observed sizes that finds nothing misses an escape exactly when the operation
   * throws just below a size that it asks for only after a refusal.
   */
  lemma SweepMissesIff(op: Op)
    requires EscapeSizes(op) == {}
    ensures !NeverEscapes(op) <==> exists s :: Unseen(op, s)
  {
    NeverEscapesIff(op);
    if !NeverEscapes(op) {
      var s :| s in Asked(op) && s != 0 && Escapes(op, s - 1);
      assert s in Log(op) ==> s in EscapeSizes(op);
      assert Unseen(op, s);
    }
  }

  /** A sweep that finds something is right to. */
  lemma SweepIsSound(op: Op)
    requires EscapeSizes(op) != {}
    ensures !NeverEscapes(op)
  {
    var s :| s in EscapeSizes(op);
    TraceIsAsked(op, SIZE_MAX, s);
    NeverEscapesIff(op);
  }

  /** So the sweep is right about an operation that asks after a refusal for no size it did not ask for before. */
  lemma SweepIsComplete(op: Op)
    requires Closed(op)
    ensures EscapeSizes(op) == {} <==> NeverEscapes(op)
  {
    ClosedAsked(op, s => s in Log(op));
    if EscapeSizes(op) == {} { SweepMissesIff(op); } else { SweepIsSound(op); }
  }

  lemma {:induction false} ClosedAsked(op: Op, p: nat -> bool)
    requires AllSizes(op, p)
    ensures forall s :: s in Asked(op) ==> p(s)
  {
    if op.Ask? {
      ClosedAsked(op.served, p);
      ClosedAsked(op.refused, p);
    }
  }

  /** One that it misses: a fallback that asks for less, and throws, is seen at no observed size. */
  lemma FallbackIsMissed()
    ensures var op := Ask(100, false, Done, Ask(60, true, Done, Done)); Sized(op) && EscapeSizes(op) == {} && Unseen(op, 60)
  {
    var fallback := Ask(60, true, Done, Done);
    var op := Ask(100, false, Done, fallback);
    assert Log(op) == [100];
    assert !Escapes(op, 99);
    assert Escapes(fallback, 59) && Asked(op) == [100, 60];
  }

  // --- Operations that give up at the first refusal ---------------------------------------------

  /** A handled refusal ends the operation. */
  ghost predicate GivesUp(op: Op) {
    op.Ask? ==> op.refused == Done && GivesUp(op.served)
  }

  datatype Request = Request(size: nat, throwing: bool)

  /** The requests in order, when all are served. */
  function Requests(op: Op): seq<Request> {
    match op
    case Done => []
    case Ask(size, throwing, served, _) => [Request(size, throwing)] + Requests(served)
  }

  /** The first request of at least `s` bytes. */
  function FirstAtLeast(rs: seq<Request>, s: nat, i: nat): (k: nat)
    requires i <= |rs|
    ensures i <= k <= |rs| && (k < |rs| ==> rs[k].size >= s) && forall j :: i <= j < k ==> rs[j].size < s
    decreases |rs| - i
  {
    if i == |rs| || rs[i].size >= s then i else FirstAtLeast(rs, s, i + 1)
  }

  lemma {:induction false} FirstShift(r: Request, rs: seq<Request>, s: nat, i: nat)
    requires i <= |rs|
    ensures FirstAtLeast([r] + rs, s, i + 1) == 1 + FirstAtLeast(rs, s, i)
    decreases |rs| - i
  {
    if i < |rs| && rs[i].size < s { FirstShift(r, rs, s, i + 1); }
  }

  /** Such an operation escapes at a size exactly when its first request that big is a throwing one. */
  lemma {:induction false} EscapesIff(op: Op, s: nat)
    requires GivesUp(op) && s != 0
    ensures var rs := Requests(op); var k := FirstAtLeast(rs, s, 0);
            Escapes(op, s - 1) <==> k < |rs| && rs[k].throwing
  {
    if op.Ask? {
      EscapesIff(op.served, s);
      FirstShift(Request(op.size, op.throwing), Requests(op.served), s, 0);
    }
  }

  lemma {:induction false} GivesUpIsClosed(op: Op, p: nat -> bool)
    requires GivesUp(op) && Sized(op) && forall s :: s in Log(op) ==> p(s)
    ensures AllSizes(op, p)
  {
    if op.Ask? {
      assert Log(op) == [op.size] + Log(op.served);
      GivesUpIsClosed(op.served, p);
    }
  }

  /** And the sweep is complete for it. */
  lemma GivesUpSweepIsComplete(op: Op)
    requires GivesUp(op) && Sized(op)
    ensures EscapeSizes(op) == {} <==> NeverEscapes(op)
  {
    GivesUpIsClosed(op, s => s in Log(op));
    SweepIsComplete(op);
  }

  // --- A probe before every reserve -------------------------------------------------------------

  /** For each size: a probe that may fail, and only then the throwing reserve of the same size. */
  function Probed(sizes: seq<nat>): Op {
    if sizes == [] then Done else Ask(sizes[0], false, Ask(sizes[0], true, Probed(sizes[1..]), Done), Done)
  }

  /** No threshold makes a probed operation throw: a heap that served the probe serves the reserve. */
  lemma {:induction false} ProbedNeverEscapes(sizes: seq<nat>, m: nat)
    ensures !Escapes(Probed(sizes), m)
  {
    if sizes != [] { ProbedNeverEscapes(sizes[1..], m); }
  }

  /** A `bad_alloc` leaves the operation when its request number `k` alone is refused. */
  predicate EscapesByIndex(op: Op, k: nat) {
    op.Ask? && (if k == 0 then op.throwing else EscapesByIndex(op.served, k - 1))
  }

  /** Refusing by index would throw at every reserve, and only there. */
  lemma {:induction false} ProbedEscapesByIndex(sizes: seq<nat>, k: nat)
    ensures EscapesByIndex(Probed(sizes), k) <==> k < 2 * |sizes| && k % 2 == 1
  {
    if sizes != [] && k >= 2 {
      ProbedEscapesByIndex(sizes[1..], k - 2);
      var op := Probed(sizes);
      assert EscapesByIndex(op, k) == EscapesByIndex(op.served, k - 1) == EscapesByIndex(op.served.served, k - 2);
    }
  }
}
