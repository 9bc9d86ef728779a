/**
 * The live balance and its high-water mark: charges added and taken off by any number of threads,
 * the mark raised by a load and a weak compare-exchange that may fail for no reason, and a reset
 * that reads the balance and stores it as two separate steps. Every interleaving of those steps.
 */
module PeakBalance {
  import MapSum
  import opened MinMax

  /**
   * What a block out is known by when it comes back: its usable size, for one of the C heap; the
   * size and the alignment it was drawn with, for one of a counting source.
   */
  datatype Block = OfHeap(usable: nat) | OfSource(bytes: nat, align: nat)

  ghost function Charges(charge: Block -> nat, blocks: map<nat, Block>): map<nat, nat> {
    map p | p in blocks :: charge(blocks[p])
  }

  /** Where a thread is. `epoch` is the number of resets before the thread's charge was added. */
  datatype Op =
    | Idle
    /** Balance raised to `now`, mark not looked at yet. */
    | Added(now: int, epoch: nat)
    /** Mark read as `seen`: leave, or try the exchange. */
    | Loaded(now: int, seen: int, epoch: nat)
    /** Resetting, with the balance read. */
    | Resetting(value: int)

  /**
   * What happened since the last reset, kept to say what the mark means: the value it stored, the
   * balances reached by additions since, and those of the additions in flight when it happened.
   * `covers` is whether the stored value was no lower than the balance at that moment.
   */
  datatype History = History(epoch: nat, base: int, since: seq<int>, stale: seq<int>, covers: bool)

  /**
   * `charge` is what a block counts for, worked out anew at its draw and at its return: its usable
   * size, or `SizeClasses.Charge`; any function will do. `blocks` are the blocks out, by address.
   */
  datatype World = World(charge: Block -> nat, live: int, peak: int, blocks: map<nat, Block>, ops: seq<Op>, h: History)

  datatype Event =
    | Add(t: nat, p: nat, b: Block)
    | Sub(p: nat, b: Block)
    | Load(t: nat)
    | Leave(t: nat)
    | Exchange(t: nat)
    | Retry(t: nat)
    | ReadLive(t: nat)
    | StorePeak(t: nat)

  /**
   * A block comes back as it was drawn. A retry needs no reason: a weak exchange may fail though the
   * mark is as seen.
   */
  ghost predicate Enabled(w: World, e: Event) {
    match e
    case Add(t, p, _) => t < |w.ops| && w.ops[t].Idle? && p !in w.blocks
    case Sub(p, b) => p in w.blocks && w.blocks[p] == b
    case Load(t) => t < |w.ops| && w.ops[t].Added?
    case Leave(t) => t < |w.ops| && w.ops[t].Loaded? && w.ops[t].now <= w.ops[t].seen
    case Exchange(t) => t < |w.ops| && w.ops[t].Loaded? && w.ops[t].now > w.ops[t].seen == w.peak
    case Retry(t) => t < |w.ops| && w.ops[t].Loaded? && w.ops[t].now > w.ops[t].seen
    case ReadLive(t) => t < |w.ops| && w.ops[t].Idle?
    case StorePeak(t) => t < |w.ops| && w.ops[t].Resetting?
  }

  predicate Bumping(op: Op) {
    op.Added? || op.Loaded?
  }

  /** The balances of the additions whose raise of the mark is not finished. */
  function InFlight(ops: seq<Op>, n: nat): seq<int>
    requires n <= |ops|
  {
    if n == 0 then [] else InFlight(ops, n - 1) + if Bumping(ops[n - 1]) then [ops[n - 1].now] else []
  }

  function Put(w: World, t: nat, op: Op): World
    requires t < |w.ops|
  {
    w.(ops := w.ops[t := op])
  }

  function Next(w: World, e: Event): World
    requires Enabled(w, e)
  {
    match e
    case Add(t, p, b) =>
      var now := w.live + w.charge(b);
      Put(w, t, Added(now, w.h.epoch))
        .(live := now, blocks := w.blocks[p := b], h := w.h.(since := w.h.since + [now]))
    case Sub(p, b) => w.(live := w.live - w.charge(b), blocks := w.blocks - {p})
    case Load(t) => Put(w, t, Loaded(w.ops[t].now, w.peak, w.ops[t].epoch))
    case Leave(t) => Put(w, t, Idle)
    case Exchange(t) => Put(w, t, Idle).(peak := w.ops[t].now)
    case Retry(t) => Put(w, t, Loaded(w.ops[t].now, w.peak, w.ops[t].epoch))
    case ReadLive(t) => Put(w, t, Resetting(w.live))
    case StorePeak(t) =>
      var v := w.ops[t].value;
      Put(w, t, Idle).(peak := v, h := History(w.h.epoch + 1, v, [], InFlight(w.ops, |w.ops|), v >= w.live))
  }

  // --- What the mark means ----------------------------------------------------------------------

  function MaxOf(base: int, xs: seq<int>): int {
    if xs == [] then base else Max(MaxOf(base, xs[..|xs| - 1]), xs[|xs| - 1])
  }

  lemma {:induction false} MaxOfIsMax(base: int, xs: seq<int>)
    ensures base <= MaxOf(base, xs) && (MaxOf(base, xs) == base || MaxOf(base, xs) in xs)
    ensures forall x :: x in xs ==> x <= MaxOf(base, xs)
  {
    if xs != [] {
      var n := |xs| - 1;
      MaxOfIsMax(base, xs[..n]);
      assert xs == xs[..n] + [xs[n]];
    }
  }

  lemma MaxOfAppend(base: int, xs: seq<int>, x: int)
    ensures MaxOf(base, xs + [x]) == Max(MaxOf(base, xs), x)
  {
    assert (xs + [x])[..|xs|] == xs;
  }

  lemma {:induction false} InFlightHas(ops: seq<Op>, t: nat, n: nat)
    requires t < n <= |ops| && Bumping(ops[t])
    ensures ops[t].now in InFlight(ops, n)
  {
    if t < n - 1 { InFlightHas(ops, t, n - 1); }
  }

  /** A raise in flight is of a balance reached since the reset, or was in flight at the reset. */
  ghost predicate OpOk(w: World, op: Op) {
    Bumping(op) ==>
      && op.epoch <= w.h.epoch
      && (if op.epoch == w.h.epoch then op.now in w.h.since else op.now in w.h.stale)
      && (op.Loaded? && op.epoch == w.h.epoch ==> op.seen <= w.peak)
  }

  ghost predicate Origin(w: World) {
    w.peak == w.h.base || w.peak in w.h.since || w.peak in w.h.stale
  }

  function High(w: World): int {
    MaxOf(w.h.base, w.h.since)
  }

  /** The highest balance since the reset is in the mark, or on its way there. */
  ghost predicate Reaches(w: World, t: nat) {
    t < |w.ops| && Bumping(w.ops[t]) && w.ops[t].epoch == w.h.epoch && w.ops[t].now == High(w)
  }

  ghost predicate Covered(w: World) {
    High(w) <= w.peak || exists t :: Reaches(w, t)
  }

  ghost predicate Inv(w: World) {
    && w.live == MapSum.Total(Charges(w.charge, w.blocks))
    && (forall t :: 0 <= t < |w.ops| ==> OpOk(w, w.ops[t]))
    && Origin(w)
    && Covered(w)
    && (w.h.covers ==> w.live <= High(w))
  }

  // --- Every step keeps it ----------------------------------------------------------------------

  /** Steps that change nothing but one thread's place, and perhaps raise the mark. */
  predicate Quiet(e: Event) {
    e.Load? || e.Leave? || e.Exchange? || e.Retry? || e.ReadLive?
  }

  lemma QuietInv(w: World, e: Event)
    requires Inv(w) && Enabled(w, e) && Quiet(e)
    ensures Inv(Next(w, e))
  {
    var w' := Next(w, e);
    assert OpOk(w, w.ops[e.t]);
    assert w.peak <= w'.peak && w'.h == w.h;
    if High(w') > w'.peak {
      var r :| Reaches(w, r);
      assert e.t == r ==> e.Load? || e.Retry?;
      assert Reaches(w', r);
    }
  }

  lemma AddOpOk(w: World, w': World, t: nat, now: int, op: Op)
    requires t < |w.ops| && w'.h == w.h.(since := w.h.since + [now]) && w'.peak == w.peak
    requires OpOk(w, op) || op == Added(now, w.h.epoch)
    ensures OpOk(w', op)
  {
  }

  lemma AddCovered(w: World, w': World, t: nat, now: int)
    requires Covered(w) && t < |w.ops| && !Bumping(w.ops[t]) && w'.ops == w.ops[t := Added(now, w.h.epoch)]
    requires w'.h == w.h.(since := w.h.since + [now]) && w'.peak == w.peak
    ensures Covered(w') && High(w') == Max(High(w), now)
  {
    MaxOfAppend(w.h.base, w.h.since, now);
    if High(w') > w'.peak {
      if now > High(w) {
        assert Reaches(w', t);
      } else {
        var r :| Reaches(w, r);
        assert Reaches(w', r);
      }
    }
  }

  lemma AddInv(w: World, t: nat, p: nat, b: Block)
    requires Inv(w) && Enabled(w, Add(t, p, b))
    ensures Inv(Next(w, Add(t, p, b)))
  {
    var w', now := Next(w, Add(t, p, b)), w.live + w.charge(b);
    ChargesAfterAdd(w.charge, w.blocks, p, b);
    AddCovered(w, w', t, now);
    forall k | 0 <= k < |w'.ops| ensures OpOk(w', w'.ops[k]) {
      AddOpOk(w, w', t, now, w'.ops[k]);
    }
  }

  lemma ChargesAfterAdd(charge: Block -> nat, blocks: map<nat, Block>, p: nat, b: Block)
    requires p !in blocks
    ensures MapSum.Total(Charges(charge, blocks[p := b])) == MapSum.Total(Charges(charge, blocks)) + charge(b)
  {
    MapSum.TotalInsert(Charges(charge, blocks), p, charge(b));
    assert Charges(charge, blocks[p := b]) == Charges(charge, blocks)[p := charge(b)];
  }

  lemma ChargesAfterSub(charge: Block -> nat, blocks: map<nat, Block>, p: nat)
    requires p in blocks
    ensures MapSum.Total(Charges(charge, blocks)) == charge(blocks[p]) + MapSum.Total(Charges(charge, blocks - {p}))
  {
    MapSum.TotalRemove(Charges(charge, blocks), p);
    assert Charges(charge, blocks - {p}) == Charges(charge, blocks) - {p};
  }

  lemma SubInv(w: World, p: nat, b: Block)
    requires Inv(w) && Enabled(w, Sub(p, b))
    ensures Inv(Next(w, Sub(p, b)))
  {
    var w' := Next(w, Sub(p, b));
    ChargesAfterSub(w.charge, w.blocks, p);
    assert forall k :: 0 <= k < |w'.ops| && OpOk(w, w.ops[k]) ==> OpOk(w', w'.ops[k]);
    if High(w') > w'.peak {
      var r :| Reaches(w, r);
      assert Reaches(w', r);
    }
  }

  lemma ResetInv(w: World, t: nat)
    requires Inv(w) && Enabled(w, StorePeak(t))
    ensures Inv(Next(w, StorePeak(t)))
  {
    var w' := Next(w, StorePeak(t));
    forall k | 0 <= k < |w'.ops| ensures OpOk(w', w'.ops[k]) {
      assert OpOk(w, w.ops[k]);
      if k != t && Bumping(w.ops[k]) { InFlightHas(w.ops, k, |w.ops|); }
    }
  }

  lemma {:induction false} NoneInFlight(ops: seq<Op>, n: nat)
    requires n <= |ops| && forall t :: 0 <= t < |ops| ==> !Bumping(ops[t])
    ensures InFlight(ops, n) == []
  {
    if n > 0 { NoneInFlight(ops, n - 1); }
  }

  /** A reset that races with nothing starts the mark afresh at the balance. */
  lemma QuietReset(w: World, t: nat)
    requires Enabled(w, StorePeak(t)) && w.ops[t].value == w.live && NoneBumping(w)
    ensures var w' := Next(w, StorePeak(t)); w'.peak == w'.live && w'.h.since == w'.h.stale == [] && w'.h.covers
  {
    NoneInFlight(w.ops, |w.ops|);
  }

  lemma StepInv(w: World, e: Event)
    requires Inv(w) && Enabled(w, e)
    ensures Inv(Next(w, e))
  {
    match e
    case Add(t, p, b) => AddInv(w, t, p, b);
    case Sub(p, b) => SubInv(w, p, b);
    case StorePeak(t) => ResetInv(w, t);
    case _ => QuietInv(w, e);
  }

  /** Only a reset can lower the mark. */
  lemma PeakNeverFalls(w: World, e: Event)
    requires Enabled(w, e) && !e.StorePeak?
    ensures w.peak <= Next(w, e).peak
  {
  }

  // --- Whole runs -------------------------------------------------------------------------------

  ghost predicate Start(w: World) {
    && w.live == 0 && w.peak == 0 && w.blocks == map[]
    && w.h == History(0, 0, [], [], true)
    && forall t :: 0 <= t < |w.ops| ==> w.ops[t].Idle?
  }

  ghost predicate Run(ws: seq<World>, es: seq<Event>) {
    && |ws| == |es| + 1 && Start(ws[0])
    && forall k :: 0 <= k < |es| ==> Enabled(ws[k], es[k]) && ws[k + 1] == Next(ws[k], es[k])
  }

  lemma {:induction false} RunInv(ws: seq<World>, es: seq<Event>, k: nat)
    requires Run(ws, es) && k < |ws|
    ensures Inv(ws[k])
  {
    if k > 0 {
      RunInv(ws, es, k - 1);
      StepInv(ws[k - 1], es[k - 1]);
    }
  }

  ghost predicate NoneBumping(w: World) {
    forall t :: 0 <= t < |w.ops| ==> !Bumping(w.ops[t])
  }

  /**
   * In every state of every run the balance is the charges of the blocks out, and the mark is the
   * value of the last reset or a balance that some addition reached.
   */
  lemma PeakIsABalance(ws: seq<World>, es: seq<Event>, k: nat)
    requires Run(ws, es) && k < |ws|
    ensures ws[k].live == MapSum.Total(Charges(ws[k].charge, ws[k].blocks))
    ensures Origin(ws[k])
    ensures ws[k].peak <= MaxOf(ws[k].h.base, ws[k].h.since + ws[k].h.stale)
  {
    RunInv(ws, es, k);
    var h := ws[k].h;
    assert forall x :: x in h.since || x in h.stale ==> x in h.since + h.stale;
    MaxOfIsMax(h.base, h.since + h.stale);
  }

  /**
   * Once no raise is in flight, the mark is at least the highest balance since the reset, and it is
   * exactly that unless a raise in flight at the reset was of a higher one. It is then no lower than the balance,
   * provided the reset did not store less than the balance it raced with.
   */
  lemma PeakIsTheMaximum(ws: seq<World>, es: seq<Event>, k: nat)
    requires Run(ws, es) && k < |ws| && NoneBumping(ws[k])
    ensures High(ws[k]) <= ws[k].peak
    ensures (forall x :: x in ws[k].h.stale ==> x <= High(ws[k])) ==> ws[k].peak == High(ws[k])
    ensures ws[k].h.covers ==> ws[k].live <= ws[k].peak
  {
    RunInv(ws, es, k);
    MaxOfIsMax(ws[k].h.base, ws[k].h.since);
  }

  const AT_START: World := World(_ => 100, 0, 0, map[], [Idle, Idle], History(0, 0, [], [], true))

  /** Up to the reset: one thread has added 100 and not raised the mark, the block is gone, the other resets to 0. */
  lemma RaceToReset() returns (ws: seq<World>, es: seq<Event>)
    ensures Run(ws, es) && |es| == 4 && ws[4].ops == [Added(100, 0), Idle] && ws[4].peak == 0
    ensures ws[4].h.base == 0 && ws[4].h.since == []
  {
    var w1 := Next(AT_START, Add(0, 7, OfHeap(100)));
    var w2 := Next(w1, Sub(7, OfHeap(100)));
    var w3 := Next(w2, ReadLive(1));
    var w4 := Next(w3, StorePeak(1));
    ws := [AT_START, w1, w2, w3, w4];
    es := [Add(0, 7, OfHeap(100)), Sub(7, OfHeap(100)), ReadLive(1), StorePeak(1)];
  }

  lemma RunExtends(ws: seq<World>, es: seq<Event>, e: Event)
    requires Run(ws, es) && Enabled(ws[|es|], e)
    ensures Run(ws + [Next(ws[|es|], e)], es + [e])
  {
    var ws', es' := ws + [Next(ws[|es|], e)], es + [e];
    forall k | 0 <= k < |es'| ensures Enabled(ws'[k], es'[k]) && ws'[k + 1] == Next(ws'[k], es'[k]) {
      assert k < |es| ==> ws'[k] == ws[k] && ws'[k + 1] == ws[k + 1] && es'[k] == es[k];
    }
  }

  /** A reset that races with a raise can be undone by it: the mark ends above every balance since. */
  lemma RacingReset() returns (ws: seq<World>, es: seq<Event>)
    ensures Run(ws, es) && NoneBumping(ws[|es|]) && High(ws[|es|]) < ws[|es|].peak
  {
    ws, es := RaceToReset();
    var w5 := Next(ws[4], Load(0));
    RunExtends(ws, es, Load(0));
    ws, es := ws + [w5], es + [Load(0)];
    var w6 := Next(w5, Exchange(0));
    RunExtends(ws, es, Exchange(0));
    ws, es := ws + [w6], es + [Exchange(0)];
  }

  // --- Exactly when the mark will be exact --------------------------------------------------------

  /** A step of a raise in flight. */
  predicate Raises(e: Event) {
    e.Load? || e.Leave? || e.Exchange? || e.Retry?
  }

  /** The raises in flight, carried to their ends in the order of `es`; nothing is added or reset. */
  ghost predicate Settles(w: World, es: seq<Event>)
    decreases |es|
  {
    if es == [] then NoneBumping(w) else Raises(es[0]) && Enabled(w, es[0]) && Settles(Next(w, es[0]), es[1..])
  }

  ghost function After(w: World, es: seq<Event>): World
    decreases |es|
  {
    if es == [] || !Enabled(w, es[0]) then w else After(Next(w, es[0]), es[1..])
  }

  /** The raise may still store its balance. */
  predicate MayStore(op: Op) {
    op.Added? || (op.Loaded? && op.now > op.seen)
  }

  /** Neither the mark nor a raise that may still store is above the highest balance since the reset. */
  ghost predicate Clear(w: World) {
    w.peak <= High(w) && forall t :: 0 <= t < |w.ops| && MayStore(w.ops[t]) ==> w.ops[t].now <= High(w)
  }

  lemma {:induction false} ClearSettles(w: World, es: seq<Event>)
    requires Inv(w) && Clear(w) && Settles(w, es)
    ensures After(w, es).peak == High(w)
    decreases |es|
  {
    if es == [] {
      assert High(w) <= w.peak;
    } else {
      var w' := Next(w, es[0]);
      StepInv(w, es[0]);
      assert w'.h == w.h && High(w') == High(w);
      ClearStep(w, es[0]);
      ClearSettles(w', es[1..]);
    }
  }

  lemma ClearStep(w: World, e: Event)
    requires Clear(w) && Raises(e) && Enabled(w, e)
    ensures Clear(Next(w, e))
  {
    var w' := Next(w, e);
    assert MayStore(w.ops[e.t]) || e.Leave?;
    forall t | 0 <= t < |w'.ops| && MayStore(w'.ops[t]) ensures w'.ops[t].now <= High(w') {
      assert t != e.t ==> w'.ops[t] == w.ops[t];
    }
  }

  lemma SettleStep(w: World, e: Event, es: seq<Event>)
    requires Raises(e) && Enabled(w, e) && Settles(Next(w, e), es)
    ensures Settles(w, [e] + es) && After(w, [e] + es) == After(Next(w, e), es)
  {
    assert ([e] + es)[1..] == es;
  }

  /** The raises in flight can always be carried to their ends, and the mark does not fall on the way. */
  lemma {:induction false} Finish(w: World, t: nat) returns (es: seq<Event>)
    requires t <= |w.ops| && forall k :: 0 <= k < t ==> !Bumping(w.ops[k])
    ensures Settles(w, es) && w.peak <= After(w, es).peak
    decreases |w.ops| - t, 1
  {
    if t == |w.ops| {
      es := [];
    } else if !Bumping(w.ops[t]) {
      es := Finish(w, t + 1);
    } else if w.ops[t].Loaded? && w.ops[t].now <= w.ops[t].seen {
      es := Finish(Next(w, Leave(t)), t + 1);
      SettleStep(w, Leave(t), es);
      es := [Leave(t)] + es;
    } else {
      es := Store(w, t);
    }
  }

  /** A raise that may store looks at the mark and then stores or leaves; the others follow. */
  lemma {:induction false} Store(w: World, t: nat) returns (es: seq<Event>)
    requires t < |w.ops| && MayStore(w.ops[t]) && forall k :: 0 <= k < t ==> !Bumping(w.ops[k])
    ensures Settles(w, es) && w.peak <= After(w, es).peak
    decreases |w.ops| - t, 0
  {
    var look := if w.ops[t].Added? then Load(t) else Retry(t);
    var w1 := Next(w, look);
    var act := if w.ops[t].now > w.peak then Exchange(t) else Leave(t);
    var rest := Finish(Next(w1, act), t + 1);
    SettleStep(w1, act, rest);
    SettleStep(w, look, [act] + rest);
    es := [look] + ([act] + rest);
  }

  /** From a raise above the highest balance since the reset, some order ends with the mark above it. */
  lemma StoreAbove(w: World, t: nat) returns (es: seq<Event>)
    requires t < |w.ops| && MayStore(w.ops[t]) && w.ops[t].now > High(w) >= w.peak
    ensures Settles(w, es) && High(w) < After(w, es).peak
  {
    var look := if w.ops[t].Added? then Load(t) else Retry(t);
    var w1 := Next(w, look);
    var rest := Finish(Next(w1, Exchange(t)), 0);
    SettleStep(w1, Exchange(t), rest);
    SettleStep(w, look, [Exchange(t)] + rest);
    es := [look] + ([Exchange(t)] + rest);
  }

  /** Whatever the order in which the raises in flight end, the mark is then the highest balance since the reset. */
  ghost predicate WillBeExact(w: World) {
    forall es :: Settles(w, es) ==> After(w, es).peak == High(w)
  }

  /**
   * The mark will be exact, in whatever order the raises in flight end, exactly when neither it nor a
   * raise that may still store is above the highest balance since the reset.
   */
  lemma ExactIffClear(w: World)
    requires Inv(w)
    ensures WillBeExact(w) <==> Clear(w)
  {
    if Clear(w) {
      forall es | Settles(w, es) ensures After(w, es).peak == High(w) {
        ClearSettles(w, es);
      }
    } else if w.peak > High(w) {
      var es := Finish(w, 0);
      assert Settles(w, es) && After(w, es).peak != High(w);
    } else {
      var t :| 0 <= t < |w.ops| && MayStore(w.ops[t]) && w.ops[t].now > High(w);
      var es := StoreAbove(w, t);
      assert Settles(w, es) && After(w, es).peak != High(w);
    }
  }
}
