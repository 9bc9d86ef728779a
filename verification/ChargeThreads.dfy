/**
 The counting allocator under threads. Every atomic action of an allocation or a free is one step:
 the C allocator's answer, each try of the spin lock, each probed slot, the store, the unlock, the
 update of the balance, and the release to the C allocator. Threads interleave in any order, within
 one open window numbered `w`.
 */
module ChargeThreads {
  import opened ChargeTable
  import opened MapSum

  /** A heap block: its charge, whether the table recorded it, whether its entry is live now, whether
      its charge is in the balance now, and whether its lookup reads its own entry now. */
  datatype Block = Block(charge: nat, recorded: bool, entry: bool, counted: bool, known: bool)

  datatype Lock = Clear | HeldBy(thread: nat)

  /** Where a thread is inside an allocation or a free. */
  datatype Pc =
    | Idle
    | ChargeLock(p: Ptr)
    | ChargeProbe(p: Ptr, n: nat)
    | ChargeUnlock(p: Ptr)
    | Add(p: Ptr)
    | FreeLock(p: Ptr)
    | FreeProbe(p: Ptr, n: nat)
    | FreeUnlock(p: Ptr, out: nat)
    | Subtract(p: Ptr, out: nat)
    | Release(p: Ptr)
  {
    /** The block this thread is working on. */
    function Block(): Ptr {
      if Idle? then NULL else p
    }

    predicate Critical() {
      ChargeProbe? || ChargeUnlock? || FreeProbe? || FreeUnlock?
    }
  }

  datatype Sys = Sys(table: seq<Slot>, lock: Lock, live: int, blocks: map<Ptr, Block>, threads: seq<Pc>,
                     lost: nat, capHits: nat)
  {
    /** No thread is inside an allocation or a free. */
    predicate Quiescent() {
      forall t :: 0 <= t < |threads| ==> threads[t].Idle?
    }

    /** A block that some caller owns: allocated, and no thread is working on it. */
    ghost predicate Owned(p: Ptr) {
      p in blocks && forall t :: 0 <= t < |threads| ==> threads[t].Block() != p
    }
  }

  /** What an idle thread starts, or `Go`: its next action. */
  datatype Choice = Malloc(p: Ptr, bytes: nat) | Delete(p: Ptr) | Go

  ghost predicate Enabled(s: Sys, t: nat, c: Choice) {
    && |s.table| == CHARGES
    && t < |s.threads|
    && match c
       case Malloc(p, _) => s.threads[t].Idle? && p != NULL && p !in s.blocks
       case Delete(p) => s.threads[t].Idle? && p != NULL && s.Owned(p)
       case Go => !s.threads[t].Idle? && s.threads[t].p in s.blocks
  }

  function Move(s: Sys, t: nat, pc: Pc): Sys
    requires t < |s.threads|
  {
    s.(threads := s.threads[t := pc])
  }

  function Next(s: Sys, t: nat, c: Choice, w: nat): Sys
    requires Enabled(s, t, c)
  {
    match c
    case Malloc(p, bytes) => Move(s.(blocks := s.blocks[p := Block(bytes, false, false, false, false)]), t, ChargeLock(p))
    case Delete(p) => Move(s, t, FreeLock(p))
    case Go =>
      var p := s.threads[t].p;
      var b := s.blocks[p];
      match s.threads[t]
      case ChargeLock(_) => if s.lock.Clear? then Move(s.(lock := HeldBy(t)), t, ChargeProbe(p, 0)) else s
      case ChargeProbe(_, n) => ChargeStep(s, t, p, n, w)
      case ChargeUnlock(_) => Move(s.(lock := Clear), t, Add(p))
      case Add(_) => Move(s.(live := s.live + b.charge, blocks := s.blocks[p := b.(counted := true)]), t, Idle)
      case FreeLock(_) => if s.lock.Clear? then Move(s.(lock := HeldBy(t)), t, FreeProbe(p, 0)) else s
      case FreeProbe(_, n) => FreeStep(s, t, p, n, w)
      case FreeUnlock(_, out) => Move(s.(lock := Clear), t, Subtract(p, out))
      case Subtract(_, out) => SubtractStep(s, t, p, out)
      case Release(_) => Move(s.(blocks := s.blocks - {p}), t, Idle)
  }

  /** One turn of the insert loop, or the store after it. */
  function ChargeStep(s: Sys, t: nat, p: Ptr, n: nat, w: nat): Sys
    requires |s.table| == CHARGES && t < |s.threads| && p in s.blocks
  {
    var i, b := Home(p, n), s.blocks[p];
    if n >= PROBE_CAP then
      Move(s.(capHits := s.capHits + 1, blocks := s.blocks[p := b.(known := true)]), t, ChargeUnlock(p))
    else if InsertPasses(s.table[i], p, w) then Move(s, t, ChargeProbe(p, n + 1))
    else
      Move(s.(table := s.table[i := Slot(p, w, b.charge)],
              blocks := s.blocks[p := b.(recorded := true, entry := true, known := true)]), t, ChargeUnlock(p))
  }

  /** One turn of the lookup loop. */
  function FreeStep(s: Sys, t: nat, p: Ptr, n: nat, w: nat): Sys
    requires |s.table| == CHARGES && t < |s.threads| && p in s.blocks
  {
    var i, b' := Home(p, n), s.blocks[p].(entry := false, known := false);
    if n >= PROBE_CAP || s.table[i].p == NULL then Move(s.(blocks := s.blocks[p := b']), t, FreeUnlock(p, 0))
    else if LookupPasses(s.table[i], p, w) then Move(s, t, FreeProbe(p, n + 1))
    else
      Move(s.(table := s.table[i := s.table[i].(window := 0)], blocks := s.blocks[p := b']),
           t, FreeUnlock(p, s.table[i].bytes))
  }

  /** The update of the balance by what the lookup found. The charge of a block that the table never recorded is lost. */
  function SubtractStep(s: Sys, t: nat, p: Ptr, out: nat): Sys
    requires t < |s.threads| && p in s.blocks
  {
    var b := s.blocks[p];
    Move(s.(live := s.live - out, blocks := s.blocks[p := b.(counted := false)],
            lost := if b.recorded then s.lost else s.lost + b.charge), t, Release(p))
  }

  // --- The invariant ------------------------------------------------------------------------

  /** The blocks with a live table entry, and their charges. */
  ghost function Entries(blocks: map<Ptr, Block>): map<Ptr, nat> {
    map p | p in blocks && blocks[p].entry :: blocks[p].charge
  }

  /** The blocks whose lookup reads their own entry, or misses when they have none. */
  ghost function Known(blocks: map<Ptr, Block>): set<Ptr> {
    set p | p in blocks && blocks[p].known
  }

  /** The blocks whose charge is in the balance. */
  ghost function Counted(blocks: map<Ptr, Block>): map<Ptr, nat> {
    map p | p in blocks && blocks[p].counted :: blocks[p].charge
  }

  /** A block the table never recorded has cost the window a probe-cap hit (or was never charged). */
  predicate Accounted(s: Sys, b: Block) {
    b.recorded || b.charge == 0 || s.capHits > 0
  }

  /** What a thread at `pc` knows of its block and, inside the lock, of the table. */
  ghost predicate PcOk(s: Sys, pc: Pc, w: nat)
    requires |s.table| == CHARGES
  {
    pc.Idle? ||
    (var p := pc.p;
     p in s.blocks &&
     var b := s.blocks[p];
     match pc
     case Idle => true
     case ChargeLock(_) => !b.recorded && !b.entry && !b.counted && !b.known
     case ChargeProbe(_, n) => !b.recorded && !b.entry && !b.counted && !b.known && n <= PROBE_CAP
                               && InsertProbe(s.table, p, w, 0) == InsertProbe(s.table, p, w, n)
     case ChargeUnlock(_) => b.entry == b.recorded && b.known && !b.counted && Accounted(s, b)
     case Add(_) => b.entry == b.recorded && b.known && !b.counted && Accounted(s, b)
     case FreeLock(_) => b.entry == b.recorded && b.known && b.counted && Accounted(s, b)
     case FreeProbe(_, n) => b.entry == b.recorded && b.known && b.counted && Accounted(s, b) && n <= PROBE_CAP
                             && LookupProbe(s.table, p, w, 0) == LookupProbe(s.table, p, w, n)
     case FreeUnlock(_, out) => !b.entry && !b.known && b.counted && Accounted(s, b) && out == if b.recorded then b.charge else 0
     case Subtract(_, out) => !b.entry && !b.known && b.counted && Accounted(s, b) && out == if b.recorded then b.charge else 0
     case Release(_) => !b.entry && !b.known && !b.counted)
  }

  ghost predicate Settled(s: Sys, p: Ptr)
    requires p in s.blocks
  {
    var b := s.blocks[p];
    b.entry == b.recorded && b.known && b.counted && Accounted(s, b)
  }

  ghost predicate ThreadsOk(s: Sys, w: nat)
    requires |s.table| == CHARGES
  {
    && (forall t :: 0 <= t < |s.threads| ==> PcOk(s, s.threads[t], w))
    && (forall t :: 0 <= t < |s.threads| ==> (s.threads[t].Critical() <==> s.lock == HeldBy(t)))
    && (forall t, u :: 0 <= t < u < |s.threads| && !s.threads[t].Idle? ==>
          s.threads[t].Block() != s.threads[u].Block())
    && (forall p :: p in s.blocks && s.Owned(p) ==> Settled(s, p))
  }

  /** Every block's lookup reads its own entry, and the balance adds up. */
  ghost predicate Ledger(s: Sys, w: nat) {
    && RootedIn(s.table, w) && AllReadOwn(s.table, w, Entries(s.blocks), Known(s.blocks))
    && s.live == Total(Counted(s.blocks)) + s.lost
    && (s.capHits == 0 ==> s.lost == 0)
  }

  ghost predicate Inv(s: Sys, w: nat) {
    && |s.table| == CHARGES
    && NULL !in s.blocks
    && Ledger(s, w)
    && ThreadsOk(s, w)
  }

  // --- The block records --------------------------------------------------------------------

  lemma EntriesUpdate(blocks: map<Ptr, Block>, p: Ptr, b: Block)
    ensures Entries(blocks[p := b]) == if b.entry then Entries(blocks)[p := b.charge] else Entries(blocks) - {p}
  {
  }

  lemma CountedUpdate(blocks: map<Ptr, Block>, p: Ptr, b: Block)
    ensures Counted(blocks[p := b]) == if b.counted then Counted(blocks)[p := b.charge] else Counted(blocks) - {p}
  {
  }

  /** A new record with no entry and no count, or an unchanged flag, changes nothing. */
  lemma EntriesSame(blocks: map<Ptr, Block>, p: Ptr, b: Block)
    requires if p in blocks then b.entry == blocks[p].entry && b.charge == blocks[p].charge else !b.entry
    ensures Entries(blocks[p := b]) == Entries(blocks)
  {
  }

  lemma CountedSame(blocks: map<Ptr, Block>, p: Ptr, b: Block)
    requires if p in blocks then b.counted == blocks[p].counted && b.charge == blocks[p].charge else !b.counted
    ensures Counted(blocks[p := b]) == Counted(blocks)
  {
  }

  lemma KnownUpdate(blocks: map<Ptr, Block>, p: Ptr, b: Block)
    ensures Known(blocks[p := b]) == if b.known then Known(blocks) + {p} else Known(blocks) - {p}
  {
  }

  lemma BothWithout(blocks: map<Ptr, Block>, p: Ptr)
    requires p in blocks && !blocks[p].entry && !blocks[p].counted && !blocks[p].known
    ensures Entries(blocks - {p}) == Entries(blocks) && Counted(blocks - {p}) == Counted(blocks)
    ensures Known(blocks - {p}) == Known(blocks)
  {
  }

  lemma KnownSame(blocks: map<Ptr, Block>, p: Ptr, b: Block)
    requires if p in blocks then b.known == blocks[p].known else !b.known
    ensures Known(blocks[p := b]) == Known(blocks)
  {
  }

  // --- One step keeps it --------------------------------------------------------------------

  /** Thread `t` alone moves, on block `p` alone, and touches the table only under the lock. */
  ghost predicate Frame(s: Sys, s': Sys, t: nat, p: Ptr)
    requires t < |s.threads|
  {
    && |s'.threads| == |s.threads| && s'.threads == s.threads[t := s'.threads[t]]
    && (s.threads[t].Idle? || s.threads[t].Block() == p)
    && (s'.threads[t].Idle? || s'.threads[t].Block() == p)
    && (s.threads[t].Idle? ==> p !in s.blocks || s.Owned(p))
    && (s'.blocks == s.blocks || s'.blocks == s.blocks - {p} || (p in s'.blocks && s'.blocks == s.blocks[p := s'.blocks[p]]))
    && s'.capHits >= s.capHits
    && (s'.table == s.table || s.lock == HeldBy(t))
    && (s'.lock == s.lock || (s.lock == HeldBy(t) && s'.lock == Clear) || (s.lock == Clear && s'.lock == HeldBy(t)))
    && (s'.threads[t].Critical() <==> s'.lock == HeldBy(t))
  }

  lemma OthersOk(s: Sys, s': Sys, t: nat, p: Ptr, w: nat, u: nat)
    requires |s.table| == CHARGES && NULL !in s.blocks && ThreadsOk(s, w) && |s'.table| == CHARGES
    requires t < |s.threads| && p != NULL && Frame(s, s', t, p)
    requires u < |s.threads| && u != t
    ensures PcOk(s', s'.threads[u], w)
  {
    assert PcOk(s, s.threads[u], w);
    assert s.threads[u].Idle? || s.threads[u].Block() != p;
    assert s'.threads[u] == s.threads[u];
  }

  lemma ThreadsFrame(s: Sys, s': Sys, t: nat, p: Ptr, w: nat)
    requires |s.table| == CHARGES && NULL !in s.blocks && ThreadsOk(s, w) && |s'.table| == CHARGES
    requires t < |s.threads| && p != NULL && Frame(s, s', t, p)
    requires PcOk(s', s'.threads[t], w)
    requires s'.threads[t].Idle? && p in s'.blocks ==> Settled(s', p)
    ensures ThreadsOk(s', w)
  {
    forall u | 0 <= u < |s.threads| && u != t ensures PcOk(s', s'.threads[u], w) {
      OthersOk(s, s', t, p, w, u);
    }
    forall q | q in s'.blocks && s'.Owned(q) ensures Settled(s', q) {
      assert s'.threads[t].Block() != q;
      if q != p {
        forall u | 0 <= u < |s.threads| ensures s.threads[u].Block() != q {
          assert u == t || s'.threads[u] == s.threads[u];
        }
        assert s.Owned(q);
      }
    }
  }

  lemma MallocInv(s: Sys, t: nat, c: Choice, w: nat)
    requires Inv(s, w) && Enabled(s, t, c) && c.Malloc?
    ensures Inv(Next(s, t, c, w), w)
  {
    var b := Block(c.bytes, false, false, false, false);
    EntriesSame(s.blocks, c.p, b);
    KnownSame(s.blocks, c.p, b);
    CountedSame(s.blocks, c.p, b);
    ThreadsFrame(s, Next(s, t, c, w), t, c.p, w);
  }

  lemma DeleteInv(s: Sys, t: nat, c: Choice, w: nat)
    requires Inv(s, w) && Enabled(s, t, c) && c.Delete?
    ensures Inv(Next(s, t, c, w), w)
  {
    ThreadsFrame(s, Next(s, t, c, w), t, c.p, w);
  }

  /** Taking and dropping the lock. */
  lemma LockInv(s: Sys, t: nat, w: nat)
    requires Inv(s, w) && Enabled(s, t, Go)
    requires var pc := s.threads[t]; pc.ChargeLock? || pc.FreeLock? || pc.ChargeUnlock? || pc.FreeUnlock?
    ensures Inv(Next(s, t, Go, w), w)
  {
    var s' := Next(s, t, Go, w);
    if s' != s {
      ThreadsFrame(s, s', t, s.threads[t].p, w);
    }
  }

  /** The charge of `p` is stored, or the insert has come to the cap. */
  lemma ChargeEnds(s: Sys, t: nat, p: Ptr, n: nat, w: nat)
    requires |s.table| == CHARGES && Ledger(s, w) && t < |s.threads| && p in s.blocks && p != NULL && NULL !in s.blocks
    requires PcOk(s, ChargeProbe(p, n), w) && (n == PROBE_CAP || !InsertPasses(s.table[Home(p, n)], p, w))
    ensures var s' := ChargeStep(s, t, p, n, w);
            RootedIn(s'.table, w) && AllReadOwn(s'.table, w, Entries(s'.blocks), Known(s'.blocks))
  {
    var b, m, ps := s.blocks[p], Entries(s.blocks), Known(s.blocks);
    assert n == InsertProbe(s.table, p, w, 0);
    ChargedRooted(s.table, p, w, b.charge, w);
    ChargeAllRead(s.table, w, m, ps, p, b.charge);
    var b' := if n == PROBE_CAP then b.(known := true) else b.(recorded := true, entry := true, known := true);
    EntriesUpdate(s.blocks, p, b');
    KnownUpdate(s.blocks, p, b');
    assert p !in m;
  }

  lemma ChargeLedger(s: Sys, t: nat, p: Ptr, n: nat, w: nat)
    requires |s.table| == CHARGES && Ledger(s, w) && t < |s.threads| && p in s.blocks && p != NULL && NULL !in s.blocks
    requires PcOk(s, ChargeProbe(p, n), w)
    ensures Ledger(ChargeStep(s, t, p, n, w), w)
    ensures PcOk(ChargeStep(s, t, p, n, w), ChargeStep(s, t, p, n, w).threads[t], w)
  {
    if n == PROBE_CAP || !InsertPasses(s.table[Home(p, n)], p, w) {
      ChargeEnds(s, t, p, n, w);
      CountedSame(s.blocks, p, ChargeStep(s, t, p, n, w).blocks[p]);
    }
  }

  lemma ChargeFrame(s: Sys, t: nat, p: Ptr, n: nat, w: nat)
    requires |s.table| == CHARGES && t < |s.threads| && s.threads[t] == ChargeProbe(p, n) && p in s.blocks
    requires s.lock == HeldBy(t)
    ensures Frame(s, ChargeStep(s, t, p, n, w), t, p)
  {
  }

  /** One probed slot of an insert, and the store that ends it. */
  lemma ChargeStepInv(s: Sys, t: nat, w: nat)
    requires Inv(s, w) && Enabled(s, t, Go) && s.threads[t].ChargeProbe?
    ensures Inv(Next(s, t, Go, w), w)
  {
    var p, n := s.threads[t].p, s.threads[t].n;
    assert PcOk(s, s.threads[t], w);
    ChargeLedger(s, t, p, n, w);
    ChargeFrame(s, t, p, n, w);
    ThreadsFrame(s, ChargeStep(s, t, p, n, w), t, p, w);
  }

  /** A lookup ends with what its block was charged, if it was recorded, or nothing. */
  lemma LookupEnds(s: Sys, p: Ptr, n: nat, w: nat)
    requires |s.table| == CHARGES && p in s.blocks && s.blocks[p].known && p != NULL
    requires AllReadOwn(s.table, w, Entries(s.blocks), Known(s.blocks))
    requires n <= PROBE_CAP && LookupProbe(s.table, p, w, 0) == LookupProbe(s.table, p, w, n)
    requires n == PROBE_CAP || !LookupPasses(s.table[Home(p, n)], p, w)
    ensures var hit := n < PROBE_CAP && s.table[Home(p, n)].p != NULL;
            && (if s.blocks[p].entry then s.blocks[p].charge else 0) == (if hit then s.table[Home(p, n)].bytes else 0)
            && Discharged(s.table, p, w) == if hit then s.table[Home(p, n) := s.table[Home(p, n)].(window := 0)] else s.table
  {
    assert n == LookupProbe(s.table, p, w, 0);
    assert ReadsOwn(s.table, w, Entries(s.blocks), p);
  }

  lemma FreeEnds(s: Sys, t: nat, p: Ptr, n: nat, w: nat)
    requires |s.table| == CHARGES && Ledger(s, w) && t < |s.threads| && p in s.blocks && p != NULL && NULL !in s.blocks
    requires PcOk(s, FreeProbe(p, n), w) && (n == PROBE_CAP || !LookupPasses(s.table[Home(p, n)], p, w))
    ensures var s' := FreeStep(s, t, p, n, w);
            && RootedIn(s'.table, w) && AllReadOwn(s'.table, w, Entries(s'.blocks), Known(s'.blocks))
            && s'.threads[t] == FreeUnlock(p, if s.blocks[p].recorded then s.blocks[p].charge else 0)
  {
    LookupEnds(s, p, n, w);
    DischargedRooted(s.table, p, w, w);
    DischargeAllRead(s.table, w, Entries(s.blocks), Known(s.blocks), p);
    var b' := s.blocks[p].(entry := false, known := false);
    EntriesUpdate(s.blocks, p, b');
    KnownUpdate(s.blocks, p, b');
  }

  lemma FreeLedger(s: Sys, t: nat, p: Ptr, n: nat, w: nat)
    requires |s.table| == CHARGES && Ledger(s, w) && t < |s.threads| && p in s.blocks && p != NULL && NULL !in s.blocks
    requires PcOk(s, FreeProbe(p, n), w)
    ensures Ledger(FreeStep(s, t, p, n, w), w)
    ensures PcOk(FreeStep(s, t, p, n, w), FreeStep(s, t, p, n, w).threads[t], w)
  {
    if n == PROBE_CAP || !LookupPasses(s.table[Home(p, n)], p, w) {
      FreeEnds(s, t, p, n, w);
      CountedSame(s.blocks, p, s.blocks[p].(entry := false, known := false));
    }
  }

  lemma FreeFrame(s: Sys, t: nat, p: Ptr, n: nat, w: nat)
    requires |s.table| == CHARGES && t < |s.threads| && s.threads[t] == FreeProbe(p, n) && p in s.blocks
    requires s.lock == HeldBy(t)
    ensures Frame(s, FreeStep(s, t, p, n, w), t, p)
  {
  }

  /** One probed slot of a lookup, and the kill that ends it on a hit. */
  lemma FreeStepInv(s: Sys, t: nat, w: nat)
    requires Inv(s, w) && Enabled(s, t, Go) && s.threads[t].FreeProbe?
    ensures Inv(Next(s, t, Go, w), w)
  {
    var p, n := s.threads[t].p, s.threads[t].n;
    assert PcOk(s, s.threads[t], w);
    FreeLedger(s, t, p, n, w);
    FreeFrame(s, t, p, n, w);
    ThreadsFrame(s, FreeStep(s, t, p, n, w), t, p, w);
  }

  /** The atomic addition to the balance. */
  lemma AddInv(s: Sys, t: nat, w: nat)
    requires Inv(s, w) && Enabled(s, t, Go) && s.threads[t].Add?
    ensures Inv(Next(s, t, Go, w), w)
  {
    var s', p := Next(s, t, Go, w), s.threads[t].p;
    assert PcOk(s, s.threads[t], w);
    var b' := s.blocks[p].(counted := true);
    assert Ledger(s', w) by {
      EntriesSame(s.blocks, p, b');
      KnownSame(s.blocks, p, b');
      CountedUpdate(s.blocks, p, b');
      TotalInsert(Counted(s.blocks), p, b'.charge);
    }
    ThreadsFrame(s, s', t, p, w);
  }

  lemma SubtractLedger(s: Sys, t: nat, p: Ptr, out: nat, w: nat)
    requires |s.table| == CHARGES && Ledger(s, w) && t < |s.threads| && PcOk(s, Subtract(p, out), w)
    ensures Ledger(SubtractStep(s, t, p, out), w)
  {
    var b' := s.blocks[p].(counted := false);
    EntriesSame(s.blocks, p, b');
    KnownSame(s.blocks, p, b');
    CountedUpdate(s.blocks, p, b');
    TotalRemove(Counted(s.blocks), p);
  }

  /** The atomic subtraction from the balance. */
  lemma SubtractInv(s: Sys, t: nat, w: nat)
    requires Inv(s, w) && Enabled(s, t, Go) && s.threads[t].Subtract?
    ensures Inv(Next(s, t, Go, w), w)
  {
    var p, out := s.threads[t].p, s.threads[t].out;
    assert PcOk(s, s.threads[t], w);
    SubtractLedger(s, t, p, out, w);
    ThreadsFrame(s, SubtractStep(s, t, p, out), t, p, w);
  }

  lemma ReleaseInv(s: Sys, t: nat, w: nat)
    requires Inv(s, w) && Enabled(s, t, Go) && s.threads[t].Release?
    ensures Inv(Next(s, t, Go, w), w)
  {
    assert PcOk(s, s.threads[t], w);
    BothWithout(s.blocks, s.threads[t].p);
    ThreadsFrame(s, Next(s, t, Go, w), t, s.threads[t].p, w);
  }

  /** Every step of every thread keeps the invariant. */
  lemma StepInv(s: Sys, t: nat, c: Choice, w: nat)
    requires Inv(s, w) && Enabled(s, t, c)
    ensures Inv(Next(s, t, c, w), w)
  {
    match c
    case Malloc(_, _) => MallocInv(s, t, c, w);
    case Delete(_) => DeleteInv(s, t, c, w);
    case Go =>
      var pc := s.threads[t];
      if pc.ChargeProbe? { ChargeStepInv(s, t, w); }
      else if pc.FreeProbe? { FreeStepInv(s, t, w); }
      else if pc.Add? { AddInv(s, t, w); }
      else if pc.Subtract? { SubtractInv(s, t, w); }
      else if pc.Release? { ReleaseInv(s, t, w); }
      else { LockInv(s, t, w); }
  }

  // --- The table as a map ---------------------------------------------------------------------

  /** The table is the map of the live entries. */
  ghost predicate Exact(s: Sys, w: nat) {
    Represents(s.table, w, Entries(s.blocks))
  }

  lemma ChargeExact(s: Sys, t: nat, p: Ptr, n: nat, w: nat)
    requires |s.table| == CHARGES && Exact(s, w) && t < |s.threads| && p in s.blocks && p != NULL
    requires PcOk(s, ChargeProbe(p, n), w)
    ensures Exact(ChargeStep(s, t, p, n, w), w)
  {
    var b := s.blocks[p];
    if n == PROBE_CAP {
      EntriesSame(s.blocks, p, b.(known := true));
    } else if !InsertPasses(s.table[Home(p, n)], p, w) {
      assert n == InsertProbe(s.table, p, w, 0);
      ChargeRefinesInsert(s.table, p, w, b.charge, Entries(s.blocks));
      EntriesUpdate(s.blocks, p, b.(recorded := true, entry := true, known := true));
    }
  }

  lemma FreeExact(s: Sys, t: nat, p: Ptr, n: nat, w: nat)
    requires |s.table| == CHARGES && Exact(s, w) && t < |s.threads| && p in s.blocks && p != NULL && w != 0
    requires PcOk(s, FreeProbe(p, n), w)
    ensures Exact(FreeStep(s, t, p, n, w), w)
  {
    if n == PROBE_CAP || !LookupPasses(s.table[Home(p, n)], p, w) {
      assert n == LookupProbe(s.table, p, w, 0);
      DischargeRefinesRemove(s.table, p, w, Entries(s.blocks));
      EntriesUpdate(s.blocks, p, s.blocks[p].(entry := false, known := false));
    }
  }

  /** In a window whose number is not 0 every step keeps the table a map. */
  lemma StepExact(s: Sys, t: nat, c: Choice, w: nat)
    requires Inv(s, w) && Exact(s, w) && Enabled(s, t, c) && w != 0
    ensures Exact(Next(s, t, c, w), w)
  {
    match c
    case Malloc(p, bytes) => EntriesSame(s.blocks, p, Block(bytes, false, false, false, false));
    case Delete(_) =>
    case Go =>
      var pc := s.threads[t];
      var p := pc.p;
      assert PcOk(s, pc, w);
      match pc
      case ChargeProbe(_, n) => ChargeExact(s, t, p, n, w);
      case FreeProbe(_, n) => FreeExact(s, t, p, n, w);
      case Add(_) => EntriesSame(s.blocks, p, s.blocks[p].(counted := true));
      case Subtract(_, _) => EntriesSame(s.blocks, p, s.blocks[p].(counted := false));
      case Release(_) => BothWithout(s.blocks, p);
      case _ =>
  }

  // --- Every interleaving -------------------------------------------------------------------

  /** One scheduling decision: which thread moves, and what it does. */
  datatype Turn = Turn(thread: nat, choice: Choice)

  /** `turns` is an interleaving the system can make from `s`. */
  ghost predicate CanRun(s: Sys, turns: seq<Turn>, w: nat)
    decreases |turns|
  {
    turns == [] ||
    (Enabled(s, turns[0].thread, turns[0].choice) &&
     CanRun(Next(s, turns[0].thread, turns[0].choice, w), turns[1..], w))
  }

  ghost function Run(s: Sys, turns: seq<Turn>, w: nat): Sys
    requires CanRun(s, turns, w)
    decreases |turns|
  {
    if turns == [] then s else Run(Next(s, turns[0].thread, turns[0].choice, w), turns[1..], w)
  }

  /** A window as it opens: a clear lock, idle threads, and only blocks it has not charged. */
  ghost predicate Fresh(s: Sys) {
    && s.Quiescent() && s.lock.Clear? && s.live == 0 && s.lost == 0 && s.capHits == 0
    && NULL !in s.blocks
    && forall p :: p in s.blocks ==> s.blocks[p] == Block(0, false, false, true, true)
  }

  /** The same, over any table that runs of the allocator leave. */
  ghost predicate Opening(s: Sys, w: nat) {
    Fresh(s) && RootedIn(s.table, w)
  }

  /** No allocated block has an entry of the window's number. */
  ghost predicate NoneFound(s: Sys, w: nat)
    requires |s.table| == CHARGES
  {
    forall p :: p in s.blocks ==> DischargeBytes(s.table, p, w) == 0
  }

  /** The window's number is unused: not 0, and no slot carries it. */
  ghost predicate Opened(s: Sys, w: nat) {
    Fresh(s) && w != 0 && Represents(s.table, w, map[])
  }

  lemma OpeningLedger(s: Sys, w: nat)
    requires Opening(s, w) && NoneFound(s, w)
    ensures Ledger(s, w)
  {
    assert Entries(s.blocks) == map[];
    assert forall p :: p in s.blocks ==> ReadsOwn(s.table, w, map[], p);
    TotalZero(Counted(s.blocks));
  }

  lemma OpeningThreads(s: Sys, w: nat)
    requires Opening(s, w)
    ensures ThreadsOk(s, w)
  {
  }

  lemma OpeningInv(s: Sys, w: nat)
    requires Opening(s, w) && NoneFound(s, w)
    ensures Inv(s, w)
  {
    OpeningLedger(s, w);
    OpeningThreads(s, w);
  }

  lemma OpenedInv(s: Sys, w: nat)
    requires Opened(s, w)
    ensures Inv(s, w) && Exact(s, w)
  {
    assert Entries(s.blocks) == map[];
    SoundIsRooted(s.table, w);
    OpeningInv(s, w);
  }

  lemma {:induction false} RunInv(s: Sys, turns: seq<Turn>, w: nat)
    requires Inv(s, w) && CanRun(s, turns, w)
    ensures Inv(Run(s, turns, w), w) && (Exact(s, w) && w != 0 ==> Exact(Run(s, turns, w), w))
    decreases |turns|
  {
    if turns != [] {
      StepInv(s, turns[0].thread, turns[0].choice, w);
      if Exact(s, w) && w != 0 { StepExact(s, turns[0].thread, turns[0].choice, w); }
      RunInv(Next(s, turns[0].thread, turns[0].choice, w), turns[1..], w);
    }
  }

  /** The charges of the blocks that are allocated: what a quiet window owes. */
  ghost function Outstanding(blocks: map<Ptr, Block>): map<Ptr, nat> {
    map p | p in blocks :: blocks[p].charge
  }

  /**
   Under every interleaving, at every moment: at most one thread is inside the lock, every address
   has at most one live entry, and no two threads work on one block, however soon the C allocator
   hands a freed address out again; and the block a thread works on is there for its next step.
   */
  lemma InterleavingSafe(s: Sys, turns: seq<Turn>, w: nat)
    requires Opened(s, w) && CanRun(s, turns, w)
    ensures var s' := Run(s, turns, w);
            && (forall t, u | 0 <= t < u < |s'.threads| :: !(s'.threads[t].Critical() && s'.threads[u].Critical()))
            && (forall t, u | 0 <= t < u < |s'.threads| ::
                  s'.threads[t].Idle? || s'.threads[t].Block() != s'.threads[u].Block())
            && (forall t | 0 <= t < |s'.threads| && !s'.threads[t].Idle? :: Enabled(s', t, Go))
            && (forall i, j | 0 <= i < |s'.table| && 0 <= j < |s'.table| ::
                  LiveSlot(s'.table[i], w) && LiveSlot(s'.table[j], w) && s'.table[i].p == s'.table[j].p ==> i == j)
  {
    OpenedInv(s, w);
    RunInv(s, turns, w);
    var s' := Run(s, turns, w);
    forall i, j | 0 <= i < |s'.table| && 0 <= j < |s'.table|
      && LiveSlot(s'.table[i], w) && LiveSlot(s'.table[j], w) && s'.table[i].p == s'.table[j].p
      ensures i == j
    {
      OneLiveSlot(s'.table, w, Entries(s'.blocks), s'.table[i].p);
    }
  }

  /** The balance is the outstanding charges plus those of unrecorded blocks that were freed. */
  ghost predicate Balanced(s: Sys) {
    s.live == Total(Outstanding(s.blocks)) + s.lost
  }

  /**
   Whenever no operation is in flight, the balance is the outstanding charges plus the charges
   freed unrecorded; with no probe-cap hit it is the outstanding charges exactly.
   */
  lemma QuiescentBalance(s: Sys, turns: seq<Turn>, w: nat)
    requires Opening(s, w) && NoneFound(s, w) && CanRun(s, turns, w) && Run(s, turns, w).Quiescent()
    ensures var s' := Run(s, turns, w);
            && s'.live == Total(Outstanding(s'.blocks)) + s'.lost
            && (s'.capHits == 0 ==> s'.live == Total(Outstanding(s'.blocks)))
  {
    OpeningInv(s, w);
    RunInv(s, turns, w);
    QuietCountsAll(Run(s, turns, w), w);
  }

  lemma QuietCountsAll(s: Sys, w: nat)
    requires |s.table| == CHARGES && NULL !in s.blocks && ThreadsOk(s, w) && s.Quiescent()
    ensures Counted(s.blocks) == Outstanding(s.blocks)
  {
    forall p | p in s.blocks ensures s.blocks[p].counted {
      assert s.Owned(p);
    }
  }

  // --- Where it goes wrong ----------------------------------------------------------------------

  lemma RunCons(s: Sys, t: nat, c: Choice, rest: seq<Turn>, w: nat)
    requires Enabled(s, t, c) && CanRun(Next(s, t, c, w), rest, w)
    ensures CanRun(s, [Turn(t, c)] + rest, w)
    ensures Run(s, [Turn(t, c)] + rest, w) == Run(Next(s, t, c, w), rest, w)
  {
    assert ([Turn(t, c)] + rest)[1..] == rest;
  }

  /** Thread 0 alone is at work, on block `p`. */
  ghost predicate Alone(s: Sys, pc: Pc) {
    && |s.table| == CHARGES && 0 < |s.threads| && s.threads[0] == pc && !pc.Idle? && pc.p in s.blocks
    && forall t :: 0 < t < |s.threads| ==> s.threads[t].Idle?
  }

  /** A run to quiescence that leaves the balance at `live`. */
  ghost predicate EndsWith(s: Sys, turns: seq<Turn>, live: int, w: nat) {
    CanRun(s, turns, w) && Run(s, turns, w).Quiescent() && Run(s, turns, w).live == live
  }

  /** From a found charge on: unlock, subtract, release. */
  lemma FinishRun(s: Sys, p: Ptr, out: nat, w: nat) returns (turns: seq<Turn>)
    requires Alone(s, FreeUnlock(p, out))
    ensures EndsWith(s, turns, s.live - out, w)
  {
    var s1 := Next(s, 0, Go, w);
    var s2 := Next(s1, 0, Go, w);
    var s3 := Next(s2, 0, Go, w);
    assert Alone(s1, Subtract(p, out)) && Alone(s2, Release(p)) && s3.Quiescent();
    RunCons(s2, 0, Go, [], w);
    RunCons(s1, 0, Go, [Turn(0, Go)] + [], w);
    RunCons(s, 0, Go, [Turn(0, Go)] + ([Turn(0, Go)] + []), w);
    turns := [Turn(0, Go)] + ([Turn(0, Go)] + ([Turn(0, Go)] + []));
  }

  /** The lookup loop takes off what the table holds for the block. */
  lemma {:induction false} ProbeRun(s: Sys, p: Ptr, n: nat, w: nat) returns (turns: seq<Turn>)
    requires Alone(s, FreeProbe(p, n)) && n <= PROBE_CAP
    requires LookupProbe(s.table, p, w, 0) == LookupProbe(s.table, p, w, n)
    ensures EndsWith(s, turns, s.live - DischargeBytes(s.table, p, w), w)
    decreases PROBE_CAP - n
  {
    var s' := Next(s, 0, Go, w);
    var rest;
    if n == PROBE_CAP || !LookupPasses(s.table[Home(p, n)], p, w) {
      assert n == LookupProbe(s.table, p, w, 0);
      assert Alone(s', FreeUnlock(p, DischargeBytes(s.table, p, w)));
      rest := FinishRun(s', p, DischargeBytes(s.table, p, w), w);
    } else {
      assert Alone(s', FreeProbe(p, n + 1));
      rest := ProbeRun(s', p, n + 1, w);
    }
    RunCons(s, 0, Go, rest, w);
    turns := [Turn(0, Go)] + rest;
  }

  /** The free of one block, from a quiet system on. */
  lemma FreeRun(s: Sys, p: Ptr, w: nat) returns (turns: seq<Turn>)
    requires |s.table| == CHARGES && s.Quiescent() && s.lock.Clear? && s.threads != [] && p in s.blocks && p != NULL
    ensures EndsWith(s, turns, s.live - DischargeBytes(s.table, p, w), w)
  {
    assert s.Owned(p);
    var s1 := Next(s, 0, Delete(p), w);
    var s2 := Next(s1, 0, Go, w);
    assert Alone(s1, FreeLock(p)) && Alone(s2, FreeProbe(p, 0));
    var rest := ProbeRun(s2, p, 0, w);
    RunCons(s1, 0, Go, rest, w);
    RunCons(s, 0, Delete(p), [Turn(0, Go)] + rest, w);
    turns := [Turn(0, Delete(p))] + ([Turn(0, Go)] + rest);
  }

  /** The balance is right at every quiet moment of every interleaving. */
  ghost predicate StaysBalanced(s: Sys, w: nat) {
    forall turns :: CanRun(s, turns, w) && Run(s, turns, w).Quiescent() ==> Balanced(Run(s, turns, w))
  }

  lemma NoneFoundBalances(s: Sys, w: nat)
    requires Opening(s, w) && NoneFound(s, w)
    ensures StaysBalanced(s, w)
  {
    forall turns | CanRun(s, turns, w) && Run(s, turns, w).Quiescent() ensures Balanced(Run(s, turns, w)) {
      QuiescentBalance(s, turns, w);
    }
  }

  /** The free of a block that is found puts the balance below 0. */
  lemma FoundFreeUnbalances(s: Sys, p: Ptr, w: nat)
    requires Opening(s, w) && s.threads != [] && p in s.blocks && DischargeBytes(s.table, p, w) != 0
    ensures !StaysBalanced(s, w)
  {
    var turns := FreeRun(s, p, w);
    NegativeIsUnbalanced(Run(s, turns, w));
  }

  lemma NegativeIsUnbalanced(s: Sys)
    requires s.live < 0
    ensures !Balanced(s)
  {
  }

  /**
   When the balance of a window can be trusted under every interleaving: exactly when no block that is
   allocated at its opening has an entry of its number. Where one has, its free alone puts it wrong.
   */
  lemma BalancedIffNoneFound(s: Sys, w: nat)
    requires Opening(s, w) && s.threads != []
    ensures StaysBalanced(s, w) <==> forall p :: p in s.blocks ==> DischargeBytes(s.table, p, w) == 0
  {
    if NoneFound(s, w) {
      NoneFoundBalances(s, w);
    } else {
      var p :| p in s.blocks && DischargeBytes(s.table, p, w) != 0;
      FoundFreeUnbalances(s, p, w);
    }
  }
}
