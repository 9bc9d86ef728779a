/**
 Whole runs of the counting allocator over many measurement windows: the live balance is the sum
 of the charges of the window's blocks that are still allocated, plus what was charged to blocks
 that the table could not hold and that were freed again.
 */
module HeapRuns {
  import opened ChargeTable
  import opened ForwardHeap
  import opened MapSum

  /** What the world knows of an allocated block: the window that charged it, if one did. */
  datatype Block = Uncharged | InWindow(epoch: nat, bytes: nat, recorded: bool)

  /**
   The instrument and the heap. `opens` counts windows without wrapping; `unused` is whether, at the
   last open, the window's number was not 0 and no slot carried it; `clear` is whether no block
   allocated then had an entry of that number; `lost` is what this window charged to unrecorded
   blocks that have been freed; `capHits` counts its unrecorded inserts.
   */
  datatype World = World(
    probe: Probe, blocks: map<Ptr, Block>, opens: nat, unused: bool, clear: bool, lost: nat, capHits: nat)

  datatype Event =
    | Open
    | Close
    | Refuse(on: bool)
    | Alloc(size: nat, align: nat, p: Ptr, usable: nat)
    | Free(p: Ptr)

  function InitialProbe(): Probe {
    Probe(seq(CHARGES, _ => Slot(NULL, 0, 0)), 0, false, false, 0, 0, 0, 0, 0)
  }

  function Initial(): World {
    World(InitialProbe(), map[], 0, false, false, 0, 0)
  }

  /** The C allocator never hands out a live block, and only live blocks are freed. */
  predicate Enabled(w: World, e: Event) {
    match e
    case Alloc(_, _, p, _) => p !in w.blocks
    case Free(p) => p == NULL || p in w.blocks
    case _ => true
  }

  /** Whether the table has room for `p` within the probe cap. */
  predicate Fits(s: Probe, p: Ptr)
    requires |s.table| == CHARGES
  {
    InsertProbe(s.table, p, s.window, 0) < PROBE_CAP
  }

  /** Whether the number of the next window is one that no slot carries, and not the number of dead slots. */
  predicate NextIsUnused(s: Probe) {
    var n := (s.window + 1) % WINDOWS;
    n != 0 && forall j :: 0 <= j < |s.table| ==> !LiveSlot(s.table[j], n)
  }

  /** Whether the free of no allocated block would take anything off the balance. */
  predicate NoneFound(s: Probe, blocks: map<Ptr, Block>)
    requires |s.table| == CHARGES
  {
    forall p :: p in blocks ==> DischargeBytes(s.table, p, s.window) == 0
  }

  /** The free of `p` loses its charge: this window charged it but could not record it. */
  predicate LostBy(w: World, p: Ptr) {
    p in w.blocks && w.blocks[p].InWindow? && w.blocks[p].epoch == w.opens && !w.blocks[p].recorded
  }

  function Opened(w: World): World
    requires |w.probe.table| == CHARGES
  {
    var s := AfterReset(w.probe).(armed := true);
    World(s, w.blocks, w.opens + 1, NextIsUnused(w.probe), NoneFound(s, w.blocks), 0, 0)
  }

  function Allocated(w: World, size: nat, align: nat, p: Ptr, usable: nat): World
    requires |w.probe.table| == CHARGES
  {
    var w' := w.(probe := AfterAlloc(w.probe, size, align, p, usable));
    if w.probe.refuse || p == NULL then w'
    else if !w.probe.armed then w'.(blocks := w.blocks[p := Uncharged])
    else
      var fits := Fits(w.probe, p);
      w'.(blocks := w.blocks[p := InWindow(w.opens, Charge(size, align, usable), fits)],
          capHits := w.capHits + if fits then 0 else 1)
  }

  function Freed(w: World, p: Ptr): World
    requires |w.probe.table| == CHARGES
  {
    var w' := w.(probe := AfterFree(w.probe, p), blocks := w.blocks - {p});
    if p != NULL && p in w.blocks && w.probe.armed && LostBy(w, p) then w'.(lost := w.lost + w.blocks[p].bytes) else w'
  }

  function Next(w: World, e: Event): (w': World)
    requires |w.probe.table| == CHARGES
    ensures |w'.probe.table| == CHARGES && w'.opens == w.opens + if e.Open? then 1 else 0
  {
    match e
    case Open => Opened(w)
    case Close => w.(probe := w.probe.(armed := false))
    case Refuse(on) => w.(probe := w.probe.(refuse := on))
    case Alloc(size, align, p, usable) => Allocated(w, size, align, p, usable)
    case Free(p) => Freed(w, p)
  }

  /** The charges of this window's blocks that are still allocated: what the balance should read. */
  ghost function Owed(w: World): map<Ptr, nat> {
    ChargesIn(w.blocks, w.opens, false)
  }

  /** Those of them that the table recorded. */
  ghost function Recorded(w: World): map<Ptr, nat> {
    ChargesIn(w.blocks, w.opens, true)
  }

  ghost function ChargesIn(blocks: map<Ptr, Block>, epoch: nat, recordedOnly: bool): map<Ptr, nat> {
    map p | p in blocks && blocks[p].InWindow? && blocks[p].epoch == epoch
            && (recordedOnly ==> blocks[p].recorded)
      :: blocks[p].bytes
  }

  lemma ChargesAfterAlloc(blocks: map<Ptr, Block>, epoch: nat, p: Ptr, bytes: nat, recorded: bool)
    requires p !in blocks
    ensures var blocks' := blocks[p := InWindow(epoch, bytes, recorded)];
            && ChargesIn(blocks', epoch, false) == ChargesIn(blocks, epoch, false)[p := bytes]
            && ChargesIn(blocks', epoch, true) ==
               (if recorded then ChargesIn(blocks, epoch, true)[p := bytes] else ChargesIn(blocks, epoch, true))
            && p !in ChargesIn(blocks, epoch, false) && p !in ChargesIn(blocks, epoch, true)
  {
  }

  lemma ChargesAfterFree(blocks: map<Ptr, Block>, epoch: nat, p: Ptr, recordedOnly: bool)
    ensures ChargesIn(blocks - {p}, epoch, recordedOnly) == ChargesIn(blocks, epoch, recordedOnly) - {p}
  {
  }

  /** The balance: the charges still owed, and what unrecorded blocks took with them. */
  ghost predicate Balanced(w: World) {
    w.probe.live == Total(Owed(w)) + w.lost
  }

  /** Without a cap hit every charge was recorded and none is lost. */
  ghost predicate CapCounted(w: World) {
    w.capHits == 0 ==> w.lost == 0 && Owed(w) == Recorded(w)
  }

  /** The balance adds up, and every free to come will keep it so. */
  ghost predicate Right(w: World)
    requires |w.probe.table| == CHARGES
  {
    Balanced(w) && CapCounted(w) && AllReadOwn(w.probe.table, w.probe.window, Recorded(w), w.blocks.Keys)
  }

  /**
   While a window is open that found no entry of an allocated block, the balance is right; while one
   is open whose number was unused, the table is the map of the recorded charges.
   */
  ghost predicate Inv(w: World) {
    && AllRooted(w.probe.table) && w.probe.window < WINDOWS
    && NULL !in w.blocks
    && (forall p :: p in w.blocks && w.blocks[p].InWindow? ==> w.blocks[p].epoch <= w.opens)
    && (w.unused ==> w.clear)
    && (w.probe.armed && w.clear ==> Right(w))
    && (w.probe.armed && w.unused ==> w.probe.window != 0 && Represents(w.probe.table, w.probe.window, Recorded(w)))
  }

  lemma InitialInv()
    ensures Inv(Initial())
  {
  }

  /** At its opening a window owes nothing, and is right if and only if it finds no allocated block. */
  lemma OpenRightIff(w: World)
    requires Inv(w)
    ensures var w' := Opened(w);
            && Owed(w') == map[] && Recorded(w') == map[] && Balanced(w')
            && (Right(w') <==> w'.clear)
  {
    var w' := Opened(w);
    assert Owed(w') == map[] && Recorded(w') == map[];
    assert forall p :: p in w'.blocks ==>
      (ReadsOwn(w'.probe.table, w'.probe.window, map[], p) <==> DischargeBytes(w'.probe.table, p, w'.probe.window) == 0);
  }

  lemma OpenInv(w: World)
    requires Inv(w)
    ensures Inv(Opened(w))
  {
    var w' := Opened(w);
    OpenRightIff(w);
    FreshWindowEmpty(w'.probe.table, w'.probe.window);
  }

  lemma AllocBalanced(w: World, size: nat, align: nat, p: Ptr, usable: nat)
    requires |w.probe.table| == CHARGES && p !in w.blocks && p != NULL && w.probe.armed && !w.probe.refuse
    requires Balanced(w) && CapCounted(w)
    ensures Balanced(Allocated(w, size, align, p, usable)) && CapCounted(Allocated(w, size, align, p, usable))
  {
    var b := Charge(size, align, usable);
    ChargesAfterAlloc(w.blocks, w.opens, p, b, Fits(w.probe, p));
    TotalInsert(Owed(w), p, b);
  }

  lemma AllocReads(w: World, size: nat, align: nat, p: Ptr, usable: nat)
    requires AllRooted(w.probe.table) && NULL !in w.blocks && p !in w.blocks && p != NULL
    requires w.probe.armed && !w.probe.refuse
    requires AllReadOwn(w.probe.table, w.probe.window, Recorded(w), w.blocks.Keys)
    ensures var w' := Allocated(w, size, align, p, usable);
            AllReadOwn(w'.probe.table, w.probe.window, Recorded(w'), w'.blocks.Keys)
  {
    var w', b := Allocated(w, size, align, p, usable), Charge(size, align, usable);
    ChargesAfterAlloc(w.blocks, w.opens, p, b, Fits(w.probe, p));
    ChargeAllRead(w.probe.table, w.probe.window, Recorded(w), w.blocks.Keys, p, b);
    assert w'.blocks.Keys == w.blocks.Keys + {p};
  }

  /** A window block enters the balance and, if it fits, the table; no other block's entry changes. */
  lemma AllocRight(w: World, size: nat, align: nat, p: Ptr, usable: nat)
    requires Inv(w) && p !in w.blocks && p != NULL
    requires w.probe.armed && w.clear && !w.probe.refuse
    ensures Right(Allocated(w, size, align, p, usable))
  {
    AllocBalanced(w, size, align, p, usable);
    AllocReads(w, size, align, p, usable);
  }

  lemma AllocInv(w: World, size: nat, align: nat, p: Ptr, usable: nat)
    requires Inv(w) && p !in w.blocks
    ensures Inv(Allocated(w, size, align, p, usable))
  {
    var w', b := Allocated(w, size, align, p, usable), Charge(size, align, usable);
    if !w.probe.refuse && p != NULL && w.probe.armed {
      AllRootedSteps(w.probe.table, p, w.probe.window, b);
      if w.clear { AllocRight(w, size, align, p, usable); }
      if w.unused {
        ChargesAfterAlloc(w.blocks, w.opens, p, b, Fits(w.probe, p));
        ChargeRefinesInsert(w.probe.table, p, w.probe.window, b, Recorded(w));
      }
    } else if w.probe.armed {
      SameBooks(w, w');
    }
  }

  /** Only these parts of the world matter to the balance. */
  lemma SameBooks(w: World, w': World)
    requires |w.probe.table| == CHARGES && w'.probe.table == w.probe.table && w'.probe.window == w.probe.window
    requires w'.probe.live == w.probe.live && w'.blocks == w.blocks && w'.opens == w.opens
    requires w'.lost == w.lost && w'.capHits == w.capHits
    ensures Owed(w') == Owed(w) && Recorded(w') == Recorded(w) && Right(w') == Right(w)
  {
  }

  /** A freed block leaves the balance by its recorded charge; an unrecorded one is lost. */
  lemma FreeBalanced(w: World, p: Ptr)
    requires p != NULL && |w.probe.table| == CHARGES && p in w.blocks && w.probe.armed
    requires Balanced(w) && ReadsOwn(w.probe.table, w.probe.window, Recorded(w), p)
    ensures Balanced(Freed(w, p))
  {
    ChargesAfterFree(w.blocks, w.opens, p, false);
    TotalWithout(Owed(w), p);
    assert p in Recorded(w) <==> p in Owed(w) && !LostBy(w, p);
  }

  lemma FreeCapCounted(w: World, p: Ptr)
    requires CapCounted(w) && |w.probe.table| == CHARGES && p in w.blocks && w.probe.armed
    ensures CapCounted(Freed(w, p))
  {
    ChargesAfterFree(w.blocks, w.opens, p, false);
    ChargesAfterFree(w.blocks, w.opens, p, true);
    assert LostBy(w, p) ==> p in Owed(w) && p !in Recorded(w);
  }

  lemma FreeRight(w: World, p: Ptr)
    requires Inv(w) && p in w.blocks && w.probe.armed && w.clear
    ensures Right(Freed(w, p))
  {
    FreeBalanced(w, p);
    FreeCapCounted(w, p);
    ChargesAfterFree(w.blocks, w.opens, p, true);
    DischargeAllRead(w.probe.table, w.probe.window, Recorded(w), w.blocks.Keys, p);
    assert (w.blocks - {p}).Keys == w.blocks.Keys - {p};
  }

  lemma FreeInv(w: World, p: Ptr)
    requires Inv(w) && (p == NULL || p in w.blocks)
    ensures Inv(Freed(w, p))
  {
    if p == NULL {
      assert Freed(w, p) == w by { assert w.blocks - {p} == w.blocks; }
    } else if w.probe.armed {
      AllRootedSteps(w.probe.table, p, w.probe.window, 0);
      if w.clear { FreeRight(w, p); }
      if w.unused {
        ChargesAfterFree(w.blocks, w.opens, p, true);
        DischargeRefinesRemove(w.probe.table, p, w.probe.window, Recorded(w));
      }
    }
  }

  lemma StepInv(w: World, e: Event)
    requires Inv(w) && Enabled(w, e)
    ensures Inv(Next(w, e))
  {
    match e
    case Open => OpenInv(w);
    case Close =>
    case Refuse(_) =>
      SameBooks(w, Next(w, e));
    case Alloc(size, align, p, usable) => AllocInv(w, size, align, p, usable);
    case Free(p) => FreeInv(w, p);
  }

  // --- Runs -------------------------------------------------------------------------------

  /** `es` is a run the heap can make from `w`. */
  ghost predicate CanRun(w: World, es: seq<Event>)
    requires |w.probe.table| == CHARGES
    decreases |es|
  {
    es == [] || (Enabled(w, es[0]) && CanRun(Next(w, es[0]), es[1..]))
  }

  ghost function Run(w: World, es: seq<Event>): (w': World)
    requires |w.probe.table| == CHARGES
    ensures |w'.probe.table| == CHARGES && w'.opens >= w.opens
    decreases |es|
  {
    if es == [] then w else Run(Next(w, es[0]), es[1..])
  }

  lemma {:induction false} RunInv(w: World, es: seq<Event>)
    requires Inv(w) && CanRun(w, es)
    ensures Inv(Run(w, es))
    decreases |es|
  {
    if es != [] {
      StepInv(w, es[0]);
      RunInv(Next(w, es[0]), es[1..]);
    }
  }

  /** A run from the start-up state; a window is open now that found no entry of an allocated block. */
  ghost predicate Counting(es: seq<Event>) {
    CanRun(Initial(), es) && Run(Initial(), es).probe.armed && Run(Initial(), es).clear
  }

  /** The same, and the window's number was unused when it was opened. */
  ghost predicate Measuring(es: seq<Event>) {
    CanRun(Initial(), es) && Run(Initial(), es).probe.armed && Run(Initial(), es).unused
  }

  lemma ReachableInv(es: seq<Event>)
    requires CanRun(Initial(), es)
    ensures Inv(Run(Initial(), es))
  {
    InitialInv();
    RunInv(Initial(), es);
  }

  /** What can happen while a window stays open. */
  ghost predicate Within(es: seq<Event>) {
    forall k :: 0 <= k < |es| ==> es[k].Alloc? || es[k].Free? || es[k].Refuse?
  }

  lemma {:induction false} WithinOneWindow(w: World, es: seq<Event>)
    requires |w.probe.table| == CHARGES && Within(es)
    ensures Run(w, es).probe.armed == w.probe.armed && Run(w, es).clear == w.clear
    decreases |es|
  {
    if es != [] { WithinOneWindow(Next(w, es[0]), es[1..]); }
  }

  /** The balance is right in every state that the window opened at `w` can reach. */
  ghost predicate StaysBalanced(w: World)
    requires |w.probe.table| == CHARGES
  {
    forall es :: Within(es) && CanRun(w, es) ==> Balanced(Run(w, es))
  }

  /**
   When a window's balance can be trusted, for every window of every run, number 0 and the numbers
   that come again included: exactly when, at its opening, no allocated block has an entry of its
   number. Where one has, its free alone puts the balance wrong.
   */
  lemma BalancedIffNoneFound(es: seq<Event>)
    requires CanRun(Initial(), es)
    ensures var w := Next(Run(Initial(), es), Open);
            StaysBalanced(w) <==> forall p :: p in w.blocks ==> DischargeBytes(w.probe.table, p, w.probe.window) == 0
  {
    ReachableInv(es);
    var w := Next(Run(Initial(), es), Open);
    OpenInv(Run(Initial(), es));
    if w.clear {
      forall cs | Within(cs) && CanRun(w, cs) ensures Balanced(Run(w, cs)) {
        RunInv(w, cs);
        WithinOneWindow(w, cs);
      }
    } else {
      var p :| p in w.blocks && DischargeBytes(w.probe.table, p, w.probe.window) != 0;
      FoundFreeUnbalances(Run(Initial(), es), p);
    }
  }

  lemma FoundFreeUnbalances(w0: World, p: Ptr)
    requires Inv(w0)
    requires var w := Next(w0, Open); p in w.blocks && DischargeBytes(w.probe.table, p, w.probe.window) != 0
    ensures !StaysBalanced(Next(w0, Open))
  {
    var w := Next(w0, Open);
    OpenRightIff(w0);
    ChargesAfterFree(w.blocks, w.opens, p, false);
    RunStep(w, Free(p), []);
    var cs := [Free(p)] + [];
    assert Within(cs) && CanRun(w, cs);
    assert Owed(Run(w, cs)) == map[];
    assert !Balanced(Run(w, cs));
  }

  /**
   The balance after every run. It is never below the charges that are still owed, it is exactly
   them when no insert hit the probe cap, and its excess is what unrecorded blocks took with them.
   */
  lemma LiveBalance(es: seq<Event>)
    requires Counting(es)
    ensures var w := Run(Initial(), es);
            && w.probe.live == Total(Owed(w)) + w.lost
            && w.probe.live >= Total(Owed(w))
            && (w.capHits == 0 ==> w.probe.live == Total(Owed(w)))
  {
    ReachableInv(es);
  }

  /**
   What a free does after every run: a recorded block is found within the probe cap and takes off
   its charge; a block of an earlier window, of none, or unrecorded takes off nothing.
   */
  lemma FreeTakesOwnCharge(es: seq<Event>, p: Ptr)
    requires Counting(es) && p in Run(Initial(), es).blocks
    ensures var w := Run(Initial(), es);
            && w.probe.live - AfterFree(w.probe, p).live == (if p in Recorded(w) then Recorded(w)[p] else 0)
            && (p in Recorded(w) ==> Hit(w.probe.table, p, w.probe.window))
            && (w.blocks[p].Uncharged? || w.blocks[p].epoch < w.opens ==> p !in Recorded(w))
  {
    ReachableInv(es);
    var w := Run(Initial(), es);
    assert ReadsOwn(w.probe.table, w.probe.window, Recorded(w), p);
  }

  /** Every address has at most one live slot after every run. */
  lemma OneEntryPerBlock(es: seq<Event>, j: nat, k: nat)
    requires Measuring(es) && j < CHARGES && k < CHARGES
    ensures var w := Run(Initial(), es);
            var t := w.probe.table;
            LiveSlot(t[j], w.probe.window) && LiveSlot(t[k], w.probe.window) && t[j].p == t[k].p ==> j == k
  {
    ReachableInv(es);
    var w := Run(Initial(), es);
    if LiveSlot(w.probe.table[j], w.probe.window) {
      OneLiveSlot(w.probe.table, w.probe.window, Recorded(w), w.probe.table[j].p);
    }
  }

  // --- The window number wraps --------------------------------------------------------------

  /**
   A window reads the table as empty exactly when no slot carries its number. Window number 0 is
   carried by every dead slot.
   */
  lemma OpenedWindowEmpty(s: Probe)
    requires s.Valid()
    ensures var s' := AfterReset(s);
            Represents(s'.table, s'.window, map[]) <==>
            forall j :: 0 <= j < CHARGES ==> !LiveSlot(s.table[j], (s.window + 1) % WINDOWS)
  {
    FreshWindowEmpty(s.table, (s.window + 1) % WINDOWS);
  }

  /** Up to the first wrap no slot carries a number that is still to come. */
  ghost predicate Unwrapped(w: World) {
    && |w.probe.table| == CHARGES && w.probe.window == w.opens < WINDOWS
    && (forall j :: 0 <= j < CHARGES ==> w.probe.table[j].window <= w.opens)
    && (w.probe.armed ==> w.unused)
  }

  /** No write puts a window number above the current one into the table. */
  lemma WindowsBounded(t: seq<Slot>, p: Ptr, w: nat, bytes: nat, bound: nat)
    requires |t| == CHARGES && w <= bound
    requires forall j :: 0 <= j < CHARGES ==> t[j].window <= bound
    ensures forall j :: 0 <= j < CHARGES ==> Charged(t, p, w, bytes)[j].window <= bound
    ensures forall j :: 0 <= j < CHARGES ==> Discharged(t, p, w)[j].window <= bound
  {
  }

  lemma AllocUnwrapped(w: World, size: nat, align: nat, p: Ptr, usable: nat)
    requires Unwrapped(w)
    ensures Unwrapped(Allocated(w, size, align, p, usable))
  {
    WindowsBounded(w.probe.table, p, w.probe.window, Charge(size, align, usable), w.opens);
  }

  lemma FreeUnwrapped(w: World, p: Ptr)
    requires Unwrapped(w)
    ensures Unwrapped(Freed(w, p))
  {
    WindowsBounded(w.probe.table, p, w.probe.window, 0, w.opens);
  }

  lemma OpenUnwrapped(w: World)
    requires Unwrapped(w) && w.opens + 1 < WINDOWS
    ensures Unwrapped(Opened(w))
  {
    assert (w.probe.window + 1) % WINDOWS == w.opens + 1;
  }

  lemma StepUnwrapped(w: World, e: Event)
    requires Unwrapped(w) && Next(w, e).opens < WINDOWS
    ensures Unwrapped(Next(w, e))
  {
    match e
    case Open => OpenUnwrapped(w);
    case Close =>
    case Refuse(_) =>
    case Alloc(size, align, p, usable) => AllocUnwrapped(w, size, align, p, usable);
    case Free(p) => FreeUnwrapped(w, p);
  }

  lemma {:induction false} RunUnwrapped(w: World, es: seq<Event>)
    requires Unwrapped(w) && Run(w, es).opens < WINDOWS
    ensures Unwrapped(Run(w, es))
    decreases |es|
  {
    if es != [] {
      StepUnwrapped(w, es[0]);
      RunUnwrapped(Next(w, es[0]), es[1..]);
    }
  }

  lemma InitialUnwrapped()
    ensures Unwrapped(Initial())
  {
  }

  lemma ArmedIsUnused(w: World)
    requires Unwrapped(w) && Inv(w) && w.probe.armed
    ensures w.unused && w.clear
  {
  }

  /** So every one of the first 2^32 - 1 windows has an unused number, and its balance is right. */
  lemma EarlyWindowsUnused(es: seq<Event>)
    requires CanRun(Initial(), es) && Run(Initial(), es).opens < WINDOWS && Run(Initial(), es).probe.armed
    ensures Measuring(es) && Counting(es)
  {
    ReachableInv(es);
    InitialUnwrapped();
    RunUnwrapped(Initial(), es);
    ArmedIsUnused(Run(Initial(), es));
  }

  function Opens(n: nat): seq<Event> {
    if n == 0 then [] else [Open] + Opens(n - 1)
  }

  lemma {:induction false} RunConcat(w: World, a: seq<Event>, b: seq<Event>)
    requires |w.probe.table| == CHARGES
    ensures Run(w, a + b) == Run(Run(w, a), b)
    ensures CanRun(w, a) && CanRun(Run(w, a), b) ==> CanRun(w, a + b)
    decreases |a|
  {
    if a == [] {
      assert a + b == b;
    } else {
      assert (a + b)[0] == a[0] && (a + b)[1..] == a[1..] + b;
      RunConcat(Next(w, a[0]), a[1..], b);
    }
  }

  lemma RunStep(w: World, e: Event, es: seq<Event>)
    requires |w.probe.table| == CHARGES && Enabled(w, e) && CanRun(Next(w, e), es)
    ensures CanRun(w, [e] + es) && Run(w, [e] + es) == Run(Next(w, e), es)
  {
    assert ([e] + es)[1..] == es;
  }

  /** Opening windows moves the number on and leaves the table and the blocks as they are. */
  lemma {:induction false} RunOpens(w: World, n: nat)
    requires |w.probe.table| == CHARGES && w.probe.window < WINDOWS
    ensures CanRun(w, Opens(n))
    ensures var w' := Run(w, Opens(n));
            && w'.probe.table == w.probe.table && w'.blocks == w.blocks && w'.opens == w.opens + n
            && w'.probe.window == (w.probe.window + n) % WINDOWS && w'.probe.refuse == w.probe.refuse
            && (n > 0 ==> w'.probe.armed && w'.probe.live == 0)
    decreases n
  {
    if n == 0 {
      NumberMoves(w.probe.window, 0);
    } else {
      RunOpens(Next(w, Open), n - 1);
      RunStep(w, Open, Opens(n - 1));
      NumberMoves(w.probe.window, n);
    }
  }

  lemma NumberMoves(x: nat, n: nat)
    requires x < WINDOWS
    ensures n == 0 ==> (x + n) % WINDOWS == x
    ensures n > 0 ==> ((x + 1) % WINDOWS + (n - 1)) % WINDOWS == (x + n) % WINDOWS
  {
  }

  /** The number is how many windows were opened, from `base` on, in 32 bits. */
  ghost predicate Numbered(w: World, base: int) {
    w.probe.window == (base + w.opens) % WINDOWS
  }

  lemma OneMore(x: int)
    ensures (x % WINDOWS + 1) % WINDOWS == (x + 1) % WINDOWS
  {
  }

  lemma StepNumbered(w: World, e: Event, base: int)
    requires |w.probe.table| == CHARGES && Numbered(w, base)
    ensures Numbered(Next(w, e), base)
  {
    match e
    case Open => OneMore(base + w.opens);
    case _ =>
  }

  /** Whatever else a run does, its opens move the number on. */
  lemma {:induction false} RunNumbered(w: World, es: seq<Event>, base: int)
    requires |w.probe.table| == CHARGES && Numbered(w, base)
    ensures Numbered(Run(w, es), base)
    decreases |es|
  {
    if es != [] {
      StepNumbered(w, es[0], base);
      RunNumbered(Next(w, es[0]), es[1..], base);
    }
  }

  /** Any run over 2^32 opens: what a window left live and nothing wrote since is live again. */
  lemma EntriesReturn(w: World, es: seq<Event>, j: nat)
    requires |w.probe.table| == CHARGES && w.probe.window < WINDOWS && j < CHARGES
    requires Run(w, es).opens == w.opens + WINDOWS && Run(w, es).probe.table[j] == w.probe.table[j]
    ensures var w' := Run(w, es);
            && w'.probe.window == w.probe.window
            && LiveSlot(w'.probe.table[j], w'.probe.window) == LiveSlot(w.probe.table[j], w.probe.window)
  {
    RunNumbered(w, es, w.probe.window - w.opens);
  }

  /**
   In window number 0 a dead slot is live again. The free of a block that the window never
   charged takes a charge off the balance, and every repetition takes it off again.
   */
  lemma WindowZeroRevivesTheDead(t: seq<Slot>, p: Ptr, n: nat)
    requires |t| == CHARGES && p != NULL && FoundAt(t, p, 0, n)
    ensures DischargeBytes(t, p, 0) == t[Home(p, n)].bytes && Discharged(t, p, 0) == t
  {
    LookupProbeFinds(t, p, 0, n, 0);
    var i := Home(p, n);
    assert t[i := t[i].(window := 0)] == t;
  }

  /** One window that charges `p` and sees it freed; then `p` is allocated again while nothing is counted. */
  function ChargeAndFree(p: Ptr, size: nat, usable: nat): seq<Event> {
    var e := Alloc(size, 0, p, usable);
    [Open] + ([e] + ([Free(p)] + ([Close] + ([e] + []))))
  }

  /** What is left of `p` after it: a dead slot where its lookup begins, and a block of no window. */
  ghost predicate DeadEntry(w: World, p: Ptr, bytes: nat) {
    && |w.probe.table| == CHARGES && w.probe.window == 1 && w.blocks == map[p := Uncharged]
    && w.probe.table[Home(p, 0)] == Slot(p, 0, bytes)
  }

  /** The first insert into an empty table takes the block's own slot. */
  lemma FirstCharge(t: seq<Slot>, p: Ptr, bytes: nat)
    requires |t| == CHARGES && p != NULL && t[Home(p, 0)].p == NULL
    ensures InsertProbe(t, p, 1, 0) == 0 && Charged(t, p, 1, bytes)[Home(p, 0)] == Slot(p, 1, bytes)
  {
  }

  /** Its free leaves the slot dead. */
  lemma FirstFree(t: seq<Slot>, p: Ptr, bytes: nat)
    requires |t| == CHARGES && p != NULL && t[Home(p, 0)] == Slot(p, 1, bytes)
    ensures Discharged(t, p, 1)[Home(p, 0)] == Slot(p, 0, bytes)
  {
    LookupProbeFinds(t, p, 1, 0, 0);
  }

  lemma AfterChargeAndFree(p: Ptr, size: nat, usable: nat)
    requires p != NULL
    ensures CanRun(Initial(), ChargeAndFree(p, size, usable))
    ensures DeadEntry(Run(Initial(), ChargeAndFree(p, size, usable)), p, Charge(size, 0, usable))
  {
    var e, b := Alloc(size, 0, p, usable), Charge(size, 0, usable);
    var w1 := Next(Initial(), Open);
    var w2 := Next(w1, e);
    var w3 := Next(w2, Free(p));
    var w4 := Next(w3, Close);
    var w5 := Next(w4, e);
    FirstCharge(w1.probe.table, p, b);
    FirstFree(w2.probe.table, p, b);
    assert w5.blocks == map[p := Uncharged];
    RunStep(w4, e, []);
    RunStep(w3, Close, [e] + []);
    RunStep(w2, Free(p), [Close] + ([e] + []));
    RunStep(w1, e, [Free(p)] + ([Close] + ([e] + [])));
    RunStep(Initial(), Open, [e] + ([Free(p)] + ([Close] + ([e] + []))));
  }

  /** In window 0 the free of such a block takes its old charge off the balance. */
  lemma FreeInWindowZero(w: World, p: Ptr, bytes: nat)
    requires |w.probe.table| == CHARGES && w.probe.window == 0 && w.probe.armed && p != NULL
    requires w.blocks == map[p := Uncharged] && w.probe.table[Home(p, 0)] == Slot(p, 0, bytes)
    ensures var w' := Next(w, Free(p));
            w'.blocks == map[] && w'.probe.live == w.probe.live - bytes && w'.probe.armed && w'.probe.window == 0
  {
    assert FoundAt(w.probe.table, p, 0, 0);
    WindowZeroRevivesTheDead(w.probe.table, p, 0);
  }

  /**
   A run that reaches it: after 2^32 - 1 more windows the number is 0 and the dead entry is live. The
   free of `p`, which this window never charged, takes its old charge off an empty balance.
   */
  lemma WrappedBalanceIsWrong(p: Ptr, size: nat, usable: nat, n: nat)
    requires p != NULL && n == WINDOWS - 1
    ensures var es := ChargeAndFree(p, size, usable) + Opens(n) + [Free(p)];
            var w := Run(Initial(), es);
            && CanRun(Initial(), es) && w.probe.armed && w.probe.window == 0
            && Owed(w) == map[] && w.probe.live + Charge(size, 0, usable) == 0
  {
    var a, b := ChargeAndFree(p, size, usable), Opens(n);
    AfterChargeAndFree(p, size, usable);
    var w := Run(Initial(), a);
    RunOpens(w, n);
    var w' := Run(w, b);
    FreeInWindowZero(w', p, Charge(size, 0, usable));
    RunStep(w', Free(p), []);
    assert [Free(p)] + [] == [Free(p)];
    RunConcat(Initial(), a, b);
    RunConcat(Initial(), a + b, [Free(p)]);
  }
}
