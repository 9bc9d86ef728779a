/**
 * The one-block value: a refcounted block, slots that publish by exchange, and publishers that
 * fan one block out to many slots. Every interleaving of the publishers' atomic steps.
 */
module LeanValue {

  /** The refcount is 32 bits wide. */
  const WRAP: nat := 0x1_0000_0000

  /** A block's address; 0 is the null pointer. */
  type Block = nat

  function Ref(refs: map<Block, nat>, b: Block): nat {
    if b in refs then refs[b] else 0
  }

  /**
   * Where a publisher is. Its operation loans `v` and shares it with the slots of `plan`, one after
   * the other; the last slot of the plan takes the publisher's own reference.
   */
  datatype Publisher =
    | Idle
    /** About to take a reference for slot `plan[i]`, or, at the last slot, to hand over its own. */
    | Fan(v: Block, plan: seq<nat>, i: nat)
    /** Reference taken, about to exchange. */
    | Kept(v: Block, plan: seq<nat>, i: nat)
    /** Exchanged, about to subtract from the count of what the slot held before. */
    | Drop(v: Block, plan: seq<nat>, i: nat, was: Block)
    /** That was the last reference: about to delete. */
    | Free(v: Block, plan: seq<nat>, i: nat, was: Block)

  /** Heap blocks with their counts, the slots' pointers, the publishers. */
  datatype World = World(refs: map<Block, nat>, slots: seq<Block>, pubs: seq<Publisher>)

  datatype Event = Loan(t: nat, v: Block, plan: seq<nat>) | Go(t: nat)

  ghost predicate PlanFits(plan: seq<nat>, slots: nat) {
    plan != [] && forall k :: 0 <= k < |plan| ==> plan[k] < slots
  }

  predicate Last(p: Publisher)
    requires !p.Idle?
  {
    p.i + 1 >= |p.plan|
  }

  /** The publisher after it is done with slot `plan[i]`. */
  function Advance(v: Block, plan: seq<nat>, i: nat): Publisher {
    if i + 1 >= |plan| then Idle else Fan(v, plan, i + 1)
  }

  /** A loan takes an address that no live block has. */
  ghost predicate Enabled(w: World, e: Event) {
    match e
    case Loan(t, v, plan) =>
      t < |w.pubs| && w.pubs[t].Idle? && v != 0 && v !in w.refs && PlanFits(plan, |w.slots|)
    case Go(t) => t < |w.pubs| && !w.pubs[t].Idle?
  }

  function Swap(w: World, t: nat, p: Publisher): World
    requires t < |w.pubs| && !p.Idle? && p.i < |p.plan| && p.plan[p.i] < |w.slots|
  {
    var s := p.plan[p.i];
    w.(slots := w.slots[s := p.v], pubs := w.pubs[t := Drop(p.v, p.plan, p.i, w.slots[s])])
  }

  ghost predicate PublisherOk(p: Publisher, slots: nat) {
    p.Idle? || (p.v != 0 && p.i < |p.plan| && PlanFits(p.plan, slots) && (p.Kept? ==> !Last(p)) && (p.Free? ==> p.was != 0))
  }

  ghost predicate WellFormed(w: World) {
    forall t :: 0 <= t < |w.pubs| ==> PublisherOk(w.pubs[t], |w.slots|)
  }

  /** One atomic step. */
  ghost function Next(w: World, e: Event): World
    requires WellFormed(w) && Enabled(w, e)
  {
    match e
    case Loan(t, v, plan) => w.(refs := w.refs[v := 1], pubs := w.pubs[t := Fan(v, plan, 0)])
    case Go(t) =>
      var p := w.pubs[t];
      match p
      case Fan(v, plan, i) =>
        if Last(p) then Swap(w, t, p)
        else w.(refs := w.refs[v := (Ref(w.refs, v) + 1) % WRAP], pubs := w.pubs[t := Kept(v, plan, i)])
      case Kept(v, plan, i) => Swap(w, t, p)
      case Drop(v, plan, i, was) =>
        if was == 0 then w.(pubs := w.pubs[t := Advance(v, plan, i)])
        else
          var r := Ref(w.refs, was);
          w.(refs := w.refs[was := (r + WRAP - 1) % WRAP],
             pubs := w.pubs[t := if r == 1 then Free(v, plan, i, was) else Advance(v, plan, i)])
      case Free(v, plan, i, was) => w.(refs := w.refs - {was}, pubs := w.pubs[t := Advance(v, plan, i)])
  }

  // --- Counting references ----------------------------------------------------------------------

  function Bit(c: bool): nat {
    if c then 1 else 0
  }

  /** References to `b` that a publisher holds itself. */
  function Held(p: Publisher, b: Block): nat {
    match p
    case Idle => 0
    case Fan(v, _, _) => Bit(v == b)
    case Kept(v, _, _) => 2 * Bit(v == b)
    case Drop(v, _, _, was) => (if Last(p) then 0 else Bit(v == b)) + Bit(was == b)
    case Free(v, _, _, _) => if Last(p) then 0 else Bit(v == b)
  }

  function Dying(p: Publisher, b: Block): nat {
    Bit(p.Free? && p.was == b)
  }

  function HeldBy(pubs: seq<Publisher>, b: Block, n: nat): nat
    requires n <= |pubs|
  {
    if n == 0 then 0 else HeldBy(pubs, b, n - 1) + Held(pubs[n - 1], b)
  }

  function DyingIn(pubs: seq<Publisher>, b: Block, n: nat): nat
    requires n <= |pubs|
  {
    if n == 0 then 0 else DyingIn(pubs, b, n - 1) + Dying(pubs[n - 1], b)
  }

  function NamedBy(slots: seq<Block>, b: Block, n: nat): nat
    requires n <= |slots|
  {
    if n == 0 then 0 else NamedBy(slots, b, n - 1) + Bit(slots[n - 1] == b)
  }

  lemma {:induction false} HeldUpdate(pubs: seq<Publisher>, t: nat, p: Publisher, b: Block, n: nat)
    requires t < |pubs| && n <= |pubs|
    ensures HeldBy(pubs[t := p], b, n) == HeldBy(pubs, b, n) + (if t < n then Held(p, b) - Held(pubs[t], b) else 0)
    ensures DyingIn(pubs[t := p], b, n) == DyingIn(pubs, b, n) + (if t < n then Dying(p, b) - Dying(pubs[t], b) else 0)
  {
    if n > 0 { HeldUpdate(pubs, t, p, b, n - 1); }
  }

  lemma {:induction false} NamedUpdate(slots: seq<Block>, s: nat, v: Block, b: Block, n: nat)
    requires s < |slots| && n <= |slots|
    ensures NamedBy(slots[s := v], b, n) == NamedBy(slots, b, n) + (if s < n then Bit(v == b) - Bit(slots[s] == b) else 0)
  {
    if n > 0 { NamedUpdate(slots, s, v, b, n - 1); }
  }

  lemma {:induction false} HeldAtLeast(pubs: seq<Publisher>, t: nat, b: Block, n: nat)
    requires t < n <= |pubs|
    ensures Held(pubs[t], b) <= HeldBy(pubs, b, n) && Dying(pubs[t], b) <= DyingIn(pubs, b, n)
  {
    if t < n - 1 { HeldAtLeast(pubs, t, b, n - 1); }
  }

  lemma {:induction false} NamedAtLeast(slots: seq<Block>, s: nat, n: nat)
    requires s < n <= |slots|
    ensures NamedBy(slots, slots[s], n) >= 1
  {
    if s < n - 1 { NamedAtLeast(slots, s, n - 1); }
  }

  lemma {:induction false} NamedAtMost(slots: seq<Block>, b: Block, n: nat)
    requires n <= |slots|
    ensures NamedBy(slots, b, n) <= n
  {
    if n > 0 { NamedAtMost(slots, b, n - 1); }
  }

  // --- The invariant ----------------------------------------------------------------------------

  /** Every reference to `b`: slots naming it and publishers holding it. */
  function Holders(w: World, b: Block): nat {
    NamedBy(w.slots, b, |w.slots|) + HeldBy(w.pubs, b, |w.pubs|)
  }

  function Deleters(w: World, b: Block): nat {
    DyingIn(w.pubs, b, |w.pubs|)
  }

  /**
   * A block's count is its number of holders, so a block that is not there has none; a block whose
   * count is 0 has exactly one publisher about to delete it, and no other block has any.
   */
  ghost predicate Counted(w: World, b: Block) {
    && Holders(w, b) == Ref(w.refs, b)
    && Deleters(w, b) == Bit(b in w.refs && w.refs[b] == 0)
  }

  ghost predicate AllCounted(w: World) {
    forall b :: b != 0 ==> Counted(w, b)
  }

  /** No block has more references than its count can tell apart. */
  ghost predicate FewHolders(w: World) {
    forall b :: b != 0 ==> Holders(w, b) < WRAP
  }

  /** What every state has, whatever the counts say. */
  ghost predicate Formed(w: World) {
    && 0 !in w.refs
    && WellFormed(w)
    && forall b :: b in w.refs ==> w.refs[b] < WRAP
  }

  ghost predicate Inv(w: World) {
    Formed(w) && AllCounted(w)
  }

  lemma CountedIsFew(w: World)
    requires Inv(w)
    ensures FewHolders(w)
  {
    forall b | b != 0 ensures Holders(w, b) < WRAP {
      assert Counted(w, b);
    }
  }

  /** How a step changes the counts of one block. */
  lemma Recount(w: World, w': World, t: nat, p: Publisher, b: Block)
    requires t < |w.pubs| && w'.pubs == w.pubs[t := p] && w'.slots == w.slots
    ensures Holders(w', b) == Holders(w, b) + Held(p, b) - Held(w.pubs[t], b)
    ensures Deleters(w', b) == Deleters(w, b) + Dying(p, b) - Dying(w.pubs[t], b)
  {
    HeldUpdate(w.pubs, t, p, b, |w.pubs|);
  }

  lemma SwapCounted(w: World, t: nat, p: Publisher, b: Block)
    requires t < |w.pubs| && p == w.pubs[t] && !p.Idle? && p.i < |p.plan| && p.plan[p.i] < |w.slots|
    requires if Last(p) then p.Fan? else p.Kept?
    requires Counted(w, b) && b != 0
    ensures Counted(Swap(w, t, p), b)
  {
    var s := p.plan[p.i];
    var w' := Swap(w, t, p);
    HeldUpdate(w.pubs, t, w'.pubs[t], b, |w.pubs|);
    NamedUpdate(w.slots, s, p.v, b, |w.slots|);
  }

  lemma LoanCounted(w: World, t: nat, v: Block, plan: seq<nat>, b: Block)
    requires WellFormed(w) && Enabled(w, Loan(t, v, plan)) && Counted(w, b)
    ensures Counted(Next(w, Loan(t, v, plan)), b)
  {
    Recount(w, Next(w, Loan(t, v, plan)), t, Fan(v, plan, 0), b);
  }

  lemma RetainCounted(w: World, t: nat, b: Block)
    requires WellFormed(w) && Enabled(w, Go(t)) && w.pubs[t].Fan? && !Last(w.pubs[t])
    requires Counted(w, b) && Counted(w, w.pubs[t].v) && Holders(Next(w, Go(t)), b) < WRAP
    ensures Counted(Next(w, Go(t)), b)
  {
    var p, w' := w.pubs[t], Next(w, Go(t));
    Recount(w, w', t, Kept(p.v, p.plan, p.i), b);
    HeldAtLeast(w.pubs, t, p.v, |w.pubs|);
  }

  /** A retain keeps the count right exactly until the block has 2^32 holders: then it reads 0. */
  lemma RetainWraps(w: World, t: nat)
    requires WellFormed(w) && Enabled(w, Go(t)) && w.pubs[t].Fan? && !Last(w.pubs[t])
    requires Counted(w, w.pubs[t].v) && Ref(w.refs, w.pubs[t].v) < WRAP
    ensures var w', v := Next(w, Go(t)), w.pubs[t].v;
            && (Holders(w', v) == Ref(w'.refs, v) <==> Holders(w', v) < WRAP)
            && (Holders(w', v) >= WRAP ==> Ref(w'.refs, v) == 0)
  {
    var p := w.pubs[t];
    Recount(w, Next(w, Go(t)), t, Kept(p.v, p.plan, p.i), p.v);
  }

  lemma DropCounted(w: World, t: nat, b: Block)
    requires WellFormed(w) && Enabled(w, Go(t)) && w.pubs[t].Drop?
    requires b != 0 && Counted(w, b) && Holders(w, b) < WRAP
    requires w.pubs[t].was != 0 ==> Counted(w, w.pubs[t].was)
    ensures Counted(Next(w, Go(t)), b)
  {
    var p, w' := w.pubs[t], Next(w, Go(t));
    Recount(w, w', t, w'.pubs[t], b);
    HeldAtLeast(w.pubs, t, p.was, |w.pubs|);
  }

  lemma FreeCounted(w: World, t: nat, b: Block)
    requires WellFormed(w) && Enabled(w, Go(t)) && w.pubs[t].Free?
    requires b != 0 && Counted(w, b)
    ensures Counted(Next(w, Go(t)), b)
  {
    var p, w' := w.pubs[t], Next(w, Go(t));
    Recount(w, w', t, w'.pubs[t], b);
    HeldAtLeast(w.pubs, t, p.was, |w.pubs|);
  }

  lemma StepCounted(w: World, e: Event, b: Block)
    requires Inv(w) && Enabled(w, e) && b != 0 && Holders(Next(w, e), b) < WRAP
    ensures Counted(Next(w, e), b)
  {
    assert Counted(w, b);
    match e
    case Loan(t, v, plan) => LoanCounted(w, t, v, plan, b);
    case Go(t) =>
      var p := w.pubs[t];
      match p
      case Fan(v, _, _) =>
        assert Counted(w, v);
        if Last(p) { SwapCounted(w, t, p, b); } else { RetainCounted(w, t, b); }
      case Kept(_, _, _) => SwapCounted(w, t, p, b);
      case Drop(_, _, _, was) =>
        assert was != 0 ==> Counted(w, was);
        DropCounted(w, t, b);
      case Free(_, _, _, _) => FreeCounted(w, t, b);
  }

  lemma StepFormed(w: World, e: Event)
    requires Formed(w) && Enabled(w, e)
    ensures Formed(Next(w, e))
  {
  }

  /** A step from a world that counts right leads to one if and only if no block gets 2^32 holders. */
  lemma StepInv(w: World, e: Event)
    requires Inv(w) && Enabled(w, e)
    ensures Inv(Next(w, e)) <==> FewHolders(Next(w, e))
  {
    StepFormed(w, e);
    if FewHolders(Next(w, e)) {
      forall b | b != 0 ensures Counted(Next(w, e), b) {
        StepCounted(w, e, b);
      }
    } else if Inv(Next(w, e)) {
      CountedIsFew(Next(w, e));
    }
  }

  // --- Whole runs -------------------------------------------------------------------------------

  /** Empty slots, idle publishers, no block. */
  ghost predicate Start(w: World) {
    && w.refs == map[]
    && (forall s :: 0 <= s < |w.slots| ==> w.slots[s] == 0)
    && (forall t :: 0 <= t < |w.pubs| ==> w.pubs[t].Idle?)
  }

  ghost predicate Run(ws: seq<World>, es: seq<Event>) {
    && |ws| == |es| + 1 && Start(ws[0])
    && forall k :: 0 <= k < |es| ==> WellFormed(ws[k]) && Enabled(ws[k], es[k]) && ws[k + 1] == Next(ws[k], es[k])
  }

  lemma {:induction false} NothingHeld(w: World, b: Block, n: nat)
    requires n <= |w.pubs| && forall t :: 0 <= t < |w.pubs| ==> w.pubs[t].Idle?
    ensures HeldBy(w.pubs, b, n) == 0 && DyingIn(w.pubs, b, n) == 0
  {
    if n > 0 { NothingHeld(w, b, n - 1); }
  }

  lemma {:induction false} NothingNamed(w: World, b: Block, n: nat)
    requires n <= |w.slots| && b != 0 && forall s :: 0 <= s < |w.slots| ==> w.slots[s] == 0
    ensures NamedBy(w.slots, b, n) == 0
  {
    if n > 0 { NothingNamed(w, b, n - 1); }
  }

  lemma StartInv(w: World)
    requires Start(w)
    ensures Inv(w)
  {
    forall b | b != 0 ensures Counted(w, b) {
      NothingHeld(w, b, |w.pubs|);
      NothingNamed(w, b, |w.slots|);
    }
  }

  lemma {:induction false} RunFormed(ws: seq<World>, es: seq<Event>, k: nat)
    requires Run(ws, es) && k < |ws|
    ensures Formed(ws[k])
  {
    if k == 0 {
      StartInv(ws[0]);
    } else {
      RunFormed(ws, es, k - 1);
      StepFormed(ws[k - 1], es[k - 1]);
    }
  }

  /** No block has 2^32 holders in any of the first `k + 1` states. */
  ghost predicate FewUpTo(ws: seq<World>, k: nat)
    requires k < |ws|
  {
    forall j :: 0 <= j <= k ==> FewHolders(ws[j])
  }

  lemma {:induction false} RunInv(ws: seq<World>, es: seq<Event>, k: nat)
    requires Run(ws, es) && k < |ws| && FewUpTo(ws, k)
    ensures Inv(ws[k])
  {
    if k == 0 {
      StartInv(ws[0]);
    } else {
      RunInv(ws, es, k - 1);
      StepInv(ws[k - 1], es[k - 1]);
    }
  }

  /**
   * In every run, over any number of slots and publishers: the counts are right as long as, and only
   * as long as, no block has 2^32 holders.
   */
  lemma CountedIffFew(ws: seq<World>, es: seq<Event>, k: nat)
    requires Run(ws, es) && k < |ws|
    ensures (forall j :: 0 <= j <= k ==> AllCounted(ws[j])) <==> FewUpTo(ws, k)
  {
    if FewUpTo(ws, k) {
      forall j | 0 <= j <= k ensures AllCounted(ws[j]) {
        RunInv(ws, es, j);
      }
    } else {
      var j :| 0 <= j <= k && !FewHolders(ws[j]);
      RunFormed(ws, es, j);
      if AllCounted(ws[j]) { CountedIsFew(ws[j]); }
    }
  }

  // --- How many holders there can be ------------------------------------------------------------

  /** The publisher holds the reference that it loaned `b` with. */
  predicate Owns(p: Publisher, b: Block) {
    !p.Idle? && p.v == b && (p.Fan? || p.Kept? || !Last(p))
  }

  /** No block has two publishers that loaned it. */
  ghost predicate OneOwner(w: World) {
    forall t, u, b :: 0 <= t < u < |w.pubs| && b != 0 && Owns(w.pubs[t], b) ==> !Owns(w.pubs[u], b)
  }

  lemma {:induction false} HeldByOwner(pubs: seq<Publisher>, b: Block, n: nat)
    requires n <= |pubs|
    requires forall t, u :: 0 <= t < u < n && Owns(pubs[t], b) ==> !Owns(pubs[u], b)
    ensures HeldBy(pubs, b, n) <= n + 1
    ensures (forall t :: 0 <= t < n ==> !Owns(pubs[t], b)) ==> HeldBy(pubs, b, n) <= n
  {
    if n > 0 { HeldByOwner(pubs, b, n - 1); }
  }

  lemma LoanOneOwner(w: World, t: nat, v: Block, plan: seq<nat>)
    requires Inv(w) && OneOwner(w) && Enabled(w, Loan(t, v, plan))
    ensures OneOwner(Next(w, Loan(t, v, plan)))
  {
    assert Counted(w, v);
    forall u | 0 <= u < |w.pubs| ensures !Owns(w.pubs[u], v) {
      HeldAtLeast(w.pubs, u, v, |w.pubs|);
    }
  }

  /** Other steps make no owner. */
  lemma GoOneOwner(w: World, t: nat)
    requires WellFormed(w) && OneOwner(w) && Enabled(w, Go(t))
    ensures OneOwner(Next(w, Go(t)))
  {
    var p, w' := w.pubs[t], Next(w, Go(t));
    assert w'.pubs == w.pubs[t := w'.pubs[t]];
    forall b | Owns(w'.pubs[t], b) ensures Owns(p, b) {}
  }

  lemma SameSizeStep(w: World, e: Event)
    requires WellFormed(w) && Enabled(w, e)
    ensures |Next(w, e).slots| == |w.slots| && |Next(w, e).pubs| == |w.pubs|
  {
  }

  lemma HoldersFit(w: World)
    requires OneOwner(w) && |w.slots| + |w.pubs| + 1 < WRAP
    ensures FewHolders(w)
  {
    forall b | b != 0 ensures Holders(w, b) < WRAP {
      NamedAtMost(w.slots, b, |w.slots|);
      HeldByOwner(w.pubs, b, |w.pubs|);
    }
  }

  /** One reference for each slot and each publisher, and one more for the publisher that loaned the block. */
  lemma {:induction false} SmallWorldIsFew(ws: seq<World>, es: seq<Event>, k: nat)
    requires Run(ws, es) && k < |ws| && |ws[0].slots| + |ws[0].pubs| + 1 < WRAP
    ensures FewUpTo(ws, k) && OneOwner(ws[k]) && |ws[k].slots| == |ws[0].slots| && |ws[k].pubs| == |ws[0].pubs|
  {
    if k > 0 {
      SmallWorldIsFew(ws, es, k - 1);
      RunInv(ws, es, k - 1);
      SameSizeStep(ws[k - 1], es[k - 1]);
      match es[k - 1]
      case Loan(t, v, plan) => LoanOneOwner(ws[k - 1], t, v, plan);
      case Go(t) => GoOneOwner(ws[k - 1], t);
    }
    HoldersFit(ws[k]);
  }

  /**
   * In every state of every run up to the first 2^32 holders: a block that a slot names or a publisher holds is alive, with one
   * count for each of them; and a publisher about to delete is the only one to know the block.
   */
  lemma HeldIsAlive(ws: seq<World>, es: seq<Event>, k: nat, b: Block)
    requires Run(ws, es) && k < |ws| && FewUpTo(ws, k) && b != 0
    ensures Holders(ws[k], b) > 0 ==> b in ws[k].refs && ws[k].refs[b] == Holders(ws[k], b)
    ensures Deleters(ws[k], b) > 0 ==> b in ws[k].refs && Holders(ws[k], b) == 0 && Deleters(ws[k], b) == 1
  {
    RunInv(ws, es, k);
    assert Counted(ws[k], b);
  }

  /** The block the publisher's next step reads or writes, if any. */
  function Touches(p: Publisher): Block {
    match p
    case Idle => 0
    case Fan(v, _, _) => v
    case Kept(v, _, _) => v
    case Drop(_, _, _, was) => was
    case Free(_, _, _, was) => was
  }

  /** No step up to there touches a freed block: neither use after free nor double free. */
  lemma TouchedIsAlive(ws: seq<World>, es: seq<Event>, k: nat, t: nat)
    requires Run(ws, es) && k < |ws| && FewUpTo(ws, k) && t < |ws[k].pubs|
    ensures var p := ws[k].pubs[t]; Touches(p) == 0 || Touches(p) in ws[k].refs
  {
    RunInv(ws, es, k);
    var p := ws[k].pubs[t];
    if Touches(p) != 0 {
      HeldAtLeast(ws[k].pubs, t, Touches(p), |ws[k].pubs|);
      HeldIsAlive(ws, es, k, Touches(p));
    }
  }

  /** Between operations nothing leaks: a block is alive exactly when slots name it, counted once for each. */
  lemma QuietWorld(ws: seq<World>, es: seq<Event>, k: nat, b: Block)
    requires Run(ws, es) && k < |ws| && FewUpTo(ws, k) && b != 0
    requires forall t :: 0 <= t < |ws[k].pubs| ==> ws[k].pubs[t].Idle?
    ensures b in ws[k].refs <==> b in ws[k].slots
    ensures b in ws[k].refs ==> ws[k].refs[b] == NamedBy(ws[k].slots, b, |ws[k].slots|)
  {
    var w := ws[k];
    RunInv(ws, es, k);
    assert Counted(w, b);
    NothingHeld(w, b, |w.pubs|);
    if b in w.slots {
      var s :| 0 <= s < |w.slots| && w.slots[s] == b;
      NamedAtLeast(w.slots, s, |w.slots|);
    } else {
      NotNamed(w.slots, b, |w.slots|);
    }
  }

  lemma {:induction false} NotNamed(slots: seq<Block>, b: Block, n: nat)
    requires n <= |slots| && b !in slots
    ensures NamedBy(slots, b, n) == 0
  {
    if n > 0 { NotNamed(slots, b, n - 1); }
  }

  // --- 2^32 holders -----------------------------------------------------------------------------

  ghost predicate Reachable(w: World) {
    exists ws, es :: Run(ws, es) && ws[|es|] == w
  }

  lemma StartReachable(w: World)
    requires Start(w)
    ensures Reachable(w)
  {
    var es: seq<Event> := [];
    assert Run([w], es) && [w][|es|] == w;
  }

  ghost predicate Step(w: World, e: Event, w': World) {
    WellFormed(w) && Enabled(w, e) && w' == Next(w, e)
  }

  lemma StepReachable(w: World, e: Event, w': World)
    requires Reachable(w) && Step(w, e, w')
    ensures Reachable(w')
  {
    var ws, es :| Run(ws, es) && ws[|es|] == w;
    RunExtends(ws, es, e, w');
    assert (ws + [w'])[|es + [e]|] == w';
  }

  lemma RunExtends(ws: seq<World>, es: seq<Event>, e: Event, w': World)
    requires Run(ws, es) && Step(ws[|es|], e, w')
    ensures Run(ws + [w'], es + [e])
  {
    var ws', es' := ws + [w'], es + [e];
    forall k | 0 <= k < |es'| ensures WellFormed(ws'[k]) && Enabled(ws'[k], es'[k]) && ws'[k + 1] == Next(ws'[k], es'[k]) {
      if k < |es| { assert ws'[k] == ws[k] && ws'[k + 1] == ws[k + 1] && es'[k] == es[k]; }
    }
  }

  lemma ReachableFormed(w: World)
    requires Reachable(w)
    ensures Formed(w)
  {
    var ws, es :| Run(ws, es) && ws[|es|] == w;
    RunFormed(ws, es, |es|);
  }

  lemma LoanReached(w: World, t: nat, v: Block, plan: seq<nat>)
    requires Reachable(w) && Enabled(w, Loan(t, v, plan))
    ensures Reachable(World(w.refs[v := 1], w.slots, w.pubs[t := Fan(v, plan, 0)]))
  {
    ReachableFormed(w);
    StepReachable(w, Loan(t, v, plan), World(w.refs[v := 1], w.slots, w.pubs[t := Fan(v, plan, 0)]));
  }

  lemma RetainReached(w: World, t: nat, v: Block, plan: seq<nat>, i: nat)
    requires Reachable(w) && t < |w.pubs| && w.pubs[t] == Fan(v, plan, i) && i + 1 < |plan|
    ensures Reachable(World(w.refs[v := (Ref(w.refs, v) + 1) % WRAP], w.slots, w.pubs[t := Kept(v, plan, i)]))
  {
    ReachableFormed(w);
    StepReachable(w, Go(t), World(w.refs[v := (Ref(w.refs, v) + 1) % WRAP], w.slots, w.pubs[t := Kept(v, plan, i)]));
  }

  lemma SwapReached(w: World, t: nat, v: Block, plan: seq<nat>, i: nat, s: nat)
    requires Reachable(w) && t < |w.pubs| && i < |plan| && s == plan[i] < |w.slots|
    requires w.pubs[t] == if i + 1 < |plan| then Kept(v, plan, i) else Fan(v, plan, i)
    ensures Reachable(World(w.refs, w.slots[s := v], w.pubs[t := Drop(v, plan, i, w.slots[s])]))
  {
    ReachableFormed(w);
    StepReachable(w, Go(t), World(w.refs, w.slots[s := v], w.pubs[t := Drop(v, plan, i, w.slots[s])]));
  }

  lemma DropNullReached(w: World, t: nat, v: Block, plan: seq<nat>, i: nat)
    requires Reachable(w) && t < |w.pubs| && w.pubs[t] == Drop(v, plan, i, 0)
    ensures Reachable(World(w.refs, w.slots, w.pubs[t := Advance(v, plan, i)]))
  {
    ReachableFormed(w);
    StepReachable(w, Go(t), World(w.refs, w.slots, w.pubs[t := Advance(v, plan, i)]));
  }

  /** A block whose count reads 1 is dropped and deleted. */
  lemma DeleteReached(w: World, t: nat, v: Block, plan: seq<nat>, i: nat, was: Block)
    requires Reachable(w) && t < |w.pubs| && w.pubs[t] == Drop(v, plan, i, was) && was != 0 && Ref(w.refs, was) == 1
    ensures Reachable(World(w.refs - {was}, w.slots, w.pubs[t := Advance(v, plan, i)]))
  {
    ReachableFormed(w);
    var w1 := World(w.refs[was := 0], w.slots, w.pubs[t := Free(v, plan, i, was)]);
    StepReachable(w, Go(t), w1);
    ReachableFormed(w1);
    assert w.refs[was := 0] - {was} == w.refs - {was};
    assert w.pubs[t := Free(v, plan, i, was)][t := Advance(v, plan, i)] == w.pubs[t := Advance(v, plan, i)];
    StepReachable(w1, Go(t), World(w.refs - {was}, w.slots, w.pubs[t := Advance(v, plan, i)]));
  }

  /** A whole share, but for letting go of what the slot held. */
  lemma RetainAndSwap(w: World, t: nat, v: Block, plan: seq<nat>, i: nat, s: nat)
    requires Reachable(w) && t < |w.pubs| && w.pubs[t] == Fan(v, plan, i) && i + 1 < |plan| && s == plan[i] < |w.slots|
    ensures Reachable(World(w.refs[v := (Ref(w.refs, v) + 1) % WRAP], w.slots[s := v], w.pubs[t := Drop(v, plan, i, w.slots[s])]))
  {
    var refs := w.refs[v := (Ref(w.refs, v) + 1) % WRAP];
    RetainReached(w, t, v, plan, i);
    var w1 := World(refs, w.slots, w.pubs[t := Kept(v, plan, i)]);
    SwapReached(w1, t, v, plan, i, s);
    assert w1.pubs[t := Drop(v, plan, i, w.slots[s])] == w.pubs[t := Drop(v, plan, i, w.slots[s])];
  }

  /** A share to an empty slot. */
  lemma ShareToEmpty(w: World, t: nat, v: Block, plan: seq<nat>, i: nat, s: nat)
    requires Reachable(w) && t < |w.pubs| && w.pubs[t] == Fan(v, plan, i) && i + 1 < |plan|
    requires s == plan[i] < |w.slots| && w.slots[s] == 0
    ensures Reachable(World(w.refs[v := (Ref(w.refs, v) + 1) % WRAP], w.slots[s := v], w.pubs[t := Fan(v, plan, i + 1)]))
  {
    RetainAndSwap(w, t, v, plan, i, s);
    var w1 := World(w.refs[v := (Ref(w.refs, v) + 1) % WRAP], w.slots[s := v], w.pubs[t := Drop(v, plan, i, 0)]);
    DropNullReached(w1, t, v, plan, i);
    assert w1.pubs[t := Fan(v, plan, i + 1)] == w.pubs[t := Fan(v, plan, i + 1)];
  }

  /** A share to a slot that holds a block whose count reads 1. */
  lemma ShareOverLast(w: World, t: nat, v: Block, plan: seq<nat>, i: nat, s: nat, was: Block)
    requires Reachable(w) && t < |w.pubs| && w.pubs[t] == Fan(v, plan, i) && i + 1 < |plan|
    requires s == plan[i] < |w.slots| && w.slots[s] == was && was != 0 && was != v && Ref(w.refs, was) == 1
    ensures Reachable(World(w.refs[v := (Ref(w.refs, v) + 1) % WRAP] - {was}, w.slots[s := v], w.pubs[t := Fan(v, plan, i + 1)]))
  {
    RetainAndSwap(w, t, v, plan, i, s);
    var w1 := World(w.refs[v := (Ref(w.refs, v) + 1) % WRAP], w.slots[s := v], w.pubs[t := Drop(v, plan, i, was)]);
    DeleteReached(w1, t, v, plan, i, was);
    assert w1.pubs[t := Fan(v, plan, i + 1)] == w.pubs[t := Fan(v, plan, i + 1)];
  }

  // --- As many holders as there can be ------------------------------------------------------------

  /** Every slot in turn, and then slot 0 as often as there are publishers, and once more. */
  function CrowdPlan(s: nat, p: nat): seq<nat> {
    seq(s + p + 1, i => if i < s then i else 0)
  }

  /** Publisher `q` when block 1 has gained `x` references. */
  function CrowdPublisher(s: nat, p: nat, x: nat, q: nat): Publisher {
    if q == 0 then Fan(1, CrowdPlan(s, p), x) else if s + q <= x then Drop(q + 1, [0], 0, 1) else Idle
  }

  /**
   * `s` slots and `p` publishers. Publisher 0 has shared block 1 with every slot in turn, and then again
   * with slot 0 each time another publisher took block 1 out of it and has not yet let go of it.
   */
  function Crowd(s: nat, p: nat, x: nat): World {
    World(map[1 := x + 1], seq(s, i => if i < x then 1 else 0), seq(p, (q: nat) => CrowdPublisher(s, p, x, q)))
  }

  lemma CrowdStarts(s: nat, p: nat)
    requires s > 0 && p > 0
    ensures Reachable(Crowd(s, p, 0))
  {
    var w := World(map[], seq(s, _ => 0), seq(p, _ => Idle));
    StartReachable(w);
    LoanReached(w, 0, 1, CrowdPlan(s, p));
    assert w.slots == Crowd(s, p, 0).slots;
    assert w.pubs[0 := Fan(1, CrowdPlan(s, p), 0)] == Crowd(s, p, 0).pubs;
  }

  /** One more slot. */
  lemma CrowdSlot(s: nat, p: nat, x: nat)
    requires p > 0 && x < s && x + 2 < WRAP && Reachable(Crowd(s, p, x))
    ensures Reachable(Crowd(s, p, x + 1))
  {
    var w, w' := Crowd(s, p, x), Crowd(s, p, x + 1);
    ShareToEmpty(w, 0, 1, CrowdPlan(s, p), x, x);
    assert w.refs[1 := (Ref(w.refs, 1) + 1) % WRAP] == w'.refs;
    assert w.slots[x := 1] == w'.slots;
    assert w.pubs[0 := Fan(1, CrowdPlan(s, p), x + 1)] == w'.pubs;
  }

  /** Publisher `q` has taken block 1 out of slot 0. */
  function CrowdTaken(s: nat, p: nat, x: nat, q: nat): World
    requires 0 < s && q < p
  {
    var w := Crowd(s, p, x);
    World(w.refs[q + 1 := 1], w.slots[0 := q + 1], w.pubs[q := Drop(q + 1, [0], 0, 1)])
  }

  lemma CrowdTakes(s: nat, p: nat, x: nat, q: nat)
    requires 0 < s <= x && q == x + 1 - s < p && Reachable(Crowd(s, p, x))
    ensures Reachable(CrowdTaken(s, p, x, q))
  {
    var w := Crowd(s, p, x);
    LoanReached(w, q, q + 1, [0]);
    var w1 := World(w.refs[q + 1 := 1], w.slots, w.pubs[q := Fan(q + 1, [0], 0)]);
    SwapReached(w1, q, q + 1, [0], 0, 0);
    assert w1.pubs[q := Drop(q + 1, [0], 0, 1)] == w.pubs[q := Drop(q + 1, [0], 0, 1)];
  }

  lemma CrowdNext(s: nat, p: nat, x: nat, q: nat)
    requires 0 < s <= x && q == x + 1 - s < p && x + 2 < WRAP
    ensures var w := CrowdTaken(s, p, x, q);
            Crowd(s, p, x + 1) ==
            World(w.refs[1 := (Ref(w.refs, 1) + 1) % WRAP] - {q + 1}, w.slots[0 := 1],
                  w.pubs[0 := Fan(1, CrowdPlan(s, p), x + 1)])
  {
    var w, w' := CrowdTaken(s, p, x, q), Crowd(s, p, x + 1);
    assert w.refs[1 := (Ref(w.refs, 1) + 1) % WRAP] - {q + 1} == w'.refs;
    assert w.slots[0 := 1] == w'.slots;
    assert w.pubs[0 := Fan(1, CrowdPlan(s, p), x + 1)] == w'.pubs;
  }

  /** One more publisher. */
  lemma CrowdPublishes(s: nat, p: nat, x: nat, q: nat)
    requires 0 < s <= x && q == x + 1 - s < p && x + 2 < WRAP && Reachable(Crowd(s, p, x))
    ensures Reachable(Crowd(s, p, x + 1))
  {
    CrowdTakes(s, p, x, q);
    CrowdNext(s, p, x, q);
    ShareOverLast(CrowdTaken(s, p, x, q), 0, 1, CrowdPlan(s, p), x, 0, q + 1);
  }

  lemma CrowdGrows(s: nat, p: nat, x: nat, x': nat)
    requires s > 0 && p > 0 && x' == x + 1 < s + p && x + 2 < WRAP && Reachable(Crowd(s, p, x))
    ensures Reachable(Crowd(s, p, x'))
  {
    if x < s { CrowdSlot(s, p, x); } else { CrowdPublishes(s, p, x, x + 1 - s); }
  }

  lemma {:induction false} CrowdReachable(s: nat, p: nat, x: nat)
    requires s > 0 && p > 0 && x < s + p && x + 1 < WRAP
    ensures Reachable(Crowd(s, p, x))
    decreases x
  {
    if x == 0 {
      CrowdStarts(s, p);
    } else {
      CrowdReachable(s, p, x - 1);
      CrowdGrows(s, p, x - 1, x);
    }
  }

  lemma {:induction false} CrowdHeld(pubs: seq<Publisher>, s: nat, x: nat, n: nat)
    requires 0 < n <= |pubs| && Held(pubs[0], 1) == 2
    requires forall q :: 0 < q < |pubs| ==> pubs[q] == if s + q <= x then Drop(q + 1, [0], 0, 1) else Idle
    ensures HeldBy(pubs, 1, n) == 2 + if x < s then 0 else if n - 1 < x - s then n - 1 else x - s
  {
    if n == 1 {
      assert HeldBy(pubs, 1, 0) == 0;
    } else {
      CrowdHeld(pubs, s, x, n - 1);
    }
  }

  lemma {:induction false} FirstNamed(slots: seq<Block>, i: nat, n: nat)
    requires n <= |slots| && forall s :: 0 <= s < |slots| ==> slots[s] == if s < i then 1 else 0
    ensures NamedBy(slots, 1, n) == if n < i then n else i
  {
    if n > 0 { FirstNamed(slots, i, n - 1); }
  }

  /** The next retain gives the block `x + 2` holders. */
  function Crowded(s: nat, p: nat, x: nat): World
    requires p > 0
  {
    var w := Crowd(s, p, x);
    World(map[1 := (x + 2) % WRAP], w.slots, w.pubs[0 := Kept(1, CrowdPlan(s, p), x)])
  }

  lemma CrowdedHolders(s: nat, p: nat, x: nat)
    requires s > 0 && p > 0 && x < s + p && x + 1 < WRAP
    ensures Reachable(Crowded(s, p, x)) && Holders(Crowded(s, p, x), 1) == x + 2
  {
    var w := Crowd(s, p, x);
    CrowdReachable(s, p, x);
    RetainReached(w, 0, 1, CrowdPlan(s, p), x);
    assert w.refs[1 := (Ref(w.refs, 1) + 1) % WRAP] == map[1 := (x + 2) % WRAP];
    FirstNamed(w.slots, x, s);
    CrowdHeld(Crowded(s, p, x).pubs, s, x, p);
  }

  /** A right count that a retain takes to 0, with 2^32 holders, in a run over any slots and publishers that can make them. */
  lemma RetainWrapsInARun(s: nat, p: nat, x: nat)
    requires s > 0 && p > 0 && s + p + 1 >= WRAP && x == WRAP - 2
    ensures var w, w' := Crowd(s, p, x), Crowded(s, p, x);
            && Reachable(w) && w.refs[1] == WRAP - 1 && Step(w, Go(0), w')
            && Reachable(w') && Holders(w', 1) == WRAP && Ref(w'.refs, 1) == 0
  {
    CrowdReachable(s, p, x);
    CrowdedHolders(s, p, x);
    ReachableFormed(Crowd(s, p, x));
    var w := Crowd(s, p, x);
    assert w.refs[1 := (Ref(w.refs, 1) + 1) % WRAP] == map[1 := (x + 2) % WRAP];
  }

  /** No step of any run over `s` slots and `p` publishers gives a block 2^32 holders. */
  ghost predicate AlwaysFew(s: nat, p: nat) {
    forall ws: seq<World>, es: seq<Event> :: Run(ws, es) && |ws[0].slots| == s && |ws[0].pubs| == p ==> FewUpTo(ws, |es|)
  }

  lemma NothingRuns(ws: seq<World>, es: seq<Event>)
    requires Run(ws, es) && (|ws[0].slots| == 0 || |ws[0].pubs| == 0)
    ensures es == []
  {
    if es != [] && es[0].Loan? { NoSlotNoPlan(es[0].plan); }
  }

  lemma NoSlotNoPlan(plan: seq<nat>)
    ensures !PlanFits(plan, 0)
  {
    assert plan != [] ==> plan[0] >= 0;
  }

  lemma {:induction false} SameSize(ws: seq<World>, es: seq<Event>, k: nat)
    requires Run(ws, es) && k < |ws|
    ensures |ws[k].slots| == |ws[0].slots| && |ws[k].pubs| == |ws[0].pubs|
  {
    if k > 0 {
      SameSize(ws, es, k - 1);
      SameSizeStep(ws[k - 1], es[k - 1]);
    }
  }

  lemma ManyIsNotFew(s: nat, p: nat, x: nat)
    requires s > 0 && p > 0 && s + p + 1 >= WRAP && x == WRAP - 2
    ensures !AlwaysFew(s, p)
  {
    RetainWrapsInARun(s, p, x);
    var w := Crowded(s, p, x);
    var ws, es :| Run(ws, es) && ws[|es|] == w;
    SameSize(ws, es, |es|);
    assert !FewHolders(ws[|es|]);
  }

  /** The counts can be trusted, for some slots and publishers, exactly when these cannot make 2^32 holders. */
  lemma AlwaysFewIff(s: nat, p: nat)
    ensures AlwaysFew(s, p) <==> s == 0 || p == 0 || s + p + 1 < WRAP
  {
    if s > 0 && p > 0 && s + p + 1 >= WRAP {
      ManyIsNotFew(s, p, WRAP - 2);
    } else {
      forall ws: seq<World>, es: seq<Event> | Run(ws, es) && |ws[0].slots| == s && |ws[0].pubs| == p
        ensures FewUpTo(ws, |es|)
      {
        if s == 0 || p == 0 {
          NothingRuns(ws, es);
          StartInv(ws[0]);
          CountedIsFew(ws[0]);
        } else {
          SmallWorldIsFew(ws, es, |es|);
        }
      }
    }
  }

  // --- A freed block ------------------------------------------------------------------------------

  /** Every slot in turn. */
  function Everywhere(n: nat): seq<nat> {
    seq(n, s => s)
  }

  /** One publisher; block 1 has reached the first `i` of `n` slots. */
  function Sharing(n: nat, i: nat): World {
    World(map[1 := (i + 1) % WRAP], seq(n, s => if s < i then 1 else 0), [Fan(1, Everywhere(n), i)])
  }

  lemma SharingStarts(n: nat)
    requires n > 0
    ensures Reachable(Sharing(n, 0))
  {
    var w := World(map[], seq(n, _ => 0), [Idle]);
    StartReachable(w);
    LoanReached(w, 0, 1, Everywhere(n));
    assert w.slots == Sharing(n, 0).slots;
    assert w.pubs[0 := Fan(1, Everywhere(n), 0)] == Sharing(n, 0).pubs;
  }

  lemma ShareOnce(n: nat, i: nat)
    requires i + 1 < n && Reachable(Sharing(n, i))
    ensures Reachable(Sharing(n, i + 1))
  {
    SharingNext(n, i);
    ShareToEmpty(Sharing(n, i), 0, 1, Everywhere(n), i, i);
  }

  lemma SharingNext(n: nat, i: nat)
    requires i < n
    ensures var w := Sharing(n, i);
            Sharing(n, i + 1) ==
            World(w.refs[1 := (Ref(w.refs, 1) + 1) % WRAP], w.slots[i := 1], w.pubs[0 := Fan(1, Everywhere(n), i + 1)])
  {
    var w, w' := Sharing(n, i), Sharing(n, i + 1);
    assert w.refs[1 := (Ref(w.refs, 1) + 1) % WRAP] == w'.refs;
    assert w.slots[i := 1] == w'.slots;
    assert w.pubs[0 := Fan(1, Everywhere(n), i + 1)] == w'.pubs;
  }

  lemma {:induction false} SharingReachable(n: nat, i: nat)
    requires i < n
    ensures Reachable(Sharing(n, i))
    decreases i
  {
    if i == 0 {
      SharingStarts(n);
    } else {
      SharingReachable(n, i - 1);
      ShareOnce(n, i - 1);
    }
  }

  /**
   * A run for every number of slots: the block has one holder more than the slots it has reached,
   * and its count, which is that modulo 2^32, is right exactly below 2^32.
   */
  lemma SharingCount(n: nat, i: nat)
    requires i < n
    ensures Reachable(Sharing(n, i)) && Holders(Sharing(n, i), 1) == i + 1
    ensures Counted(Sharing(n, i), 1) <==> i + 1 < WRAP
  {
    SharingReachable(n, i);
    var w := Sharing(n, i);
    FirstNamed(w.slots, i, n);
    assert HeldBy(w.pubs, 1, 0) == 0 && HeldBy(w.pubs, 1, 1) == 1;
    assert DyingIn(w.pubs, 1, 0) == 0 && DyingIn(w.pubs, 1, 1) == 0;
  }

  /** Every slot names block 1, and its publisher is done. */
  function Everyone(n: nat): World {
    World(map[1 := n % WRAP], seq(n, _ => 1), [Idle])
  }

  lemma EveryoneReachable(n: nat)
    requires n > 0
    ensures Reachable(Everyone(n))
  {
    var w, plan, i := Sharing(n, n - 1), Everywhere(n), n - 1;
    SharingReachable(n, i);
    SwapReached(w, 0, 1, plan, i, i);
    var w1 := World(w.refs, w.slots[i := 1], w.pubs[0 := Drop(1, plan, i, 0)]);
    DropNullReached(w1, 0, 1, plan, i);
    assert w1.slots == Everyone(n).slots;
    assert w1.pubs[0 := Idle] == [Idle];
  }

  /** Another publication begins, of `v`. */
  function Another(n: nat, v: Block, plan: seq<nat>): World {
    World(map[1 := n % WRAP, v := 1], seq(n, _ => 1), [Fan(v, plan, 0)])
  }

  lemma NextLoan(n: nat, v: Block, plan: seq<nat>)
    requires n > 0 && v > 1 && PlanFits(plan, n)
    ensures Reachable(Another(n, v, plan))
  {
    var w := Everyone(n);
    EveryoneReachable(n);
    LoanReached(w, 0, v, plan);
    assert w.refs[v := 1] == Another(n, v, plan).refs;
    assert w.pubs[0 := Fan(v, plan, 0)] == [Fan(v, plan, 0)];
  }

  /** The block whose count read 1 is gone from slot 0 and from the heap. */
  function Gone(n: nat, v: Block, plan: seq<nat>): World {
    World(map[v := 2], seq(n, s => if s < 1 then v else 1), [Fan(v, plan, 1)])
  }

  lemma DeletedAtTheFirst(n: nat, v: Block, plan: seq<nat>)
    requires n > 1 && n % WRAP == 1 && v > 1 && |plan| == 2 && plan[0] == 0 && plan[1] == 1
    ensures Reachable(Gone(n, v, plan))
  {
    var w, w' := Another(n, v, plan), Gone(n, v, plan);
    NextLoan(n, v, plan);
    assert w.refs[v := (Ref(w.refs, v) + 1) % WRAP] - {1} == w'.refs;
    assert w.slots[0 := v] == w'.slots;
    assert w.pubs[0 := Fan(v, plan, 1)] == w'.pubs;
    ShareOverLast(w, 0, v, plan, 0, 0, 1);
  }

  /** About to let go of block 1 in slot 1, having deleted it for slot 0. */
  function Dangling(n: nat): World {
    World(map[2 := 2], seq(n, s => if s < 2 then 2 else 1), [Drop(2, [0, 1], 1, 1)])
  }

  /** With 2^32 + 1 slots a run touches a freed block: the first slot that lets go of it reads the count 1. */
  lemma FreedBlockTouched(n: nat)
    requires n == WRAP + 1
    ensures Reachable(Dangling(n)) && Touches(Dangling(n).pubs[0]) == 1 && 1 !in Dangling(n).refs
    ensures Dangling(n).slots[n - 1] == 1
  {
    var plan := [0, 1];
    DeletedAtTheFirst(n, 2, plan);
    var w := Gone(n, 2, plan);
    assert w.slots[1 := 2] == Dangling(n).slots;
    assert w.pubs[0 := Drop(2, plan, 1, 1)] == Dangling(n).pubs;
    SwapReached(w, 0, 2, plan, 1, 1);
  }

  // --- One publisher at a time ------------------------------------------------------------------

  /** The counts after one reference to `b` is let go; the null pointer has none. */
  function Released(refs: map<Block, nat>, b: Block): map<Block, nat>
    requires b == 0 || b in refs
  {
    if b == 0 then refs else if refs[b] == 1 then refs - {b} else refs[b := (refs[b] + WRAP - 1) % WRAP]
  }

  /**
   * Of `n` references let go one after the other, the one that reads the count 1 is the last, when
   * `n` is at most 2^32; otherwise it comes earlier, with this many still there.
   */
  function LastRead(n: nat): nat
    requires n > 0
  {
    n - (n - 1) % WRAP
  }

  /** The block `b` after all but `x` of its `n` references are let go; none at all when `b` is null. */
  function Left(b: Block, n: nat, x: nat): map<Block, nat>
    requires 0 < n
  {
    if b == 0 || x < LastRead(n) then map[] else map[b := x % WRAP]
  }

  /** The first `i` slots name `v`, the others `was`. */
  ghost predicate Reached(slots: seq<Block>, v: Block, was: Block, i: nat) {
    forall s :: 0 <= s < |slots| ==> slots[s] == if s < i then v else was
  }

  lemma LastReadIsLast(n: nat)
    requires n > 0
    ensures 1 <= LastRead(n) <= n && (LastRead(n) == 1 <==> n <= WRAP)
  {
  }

  /** The count reads 1 at the last of them that is read, and there only. */
  lemma ReadsOne(n: nat, x: nat)
    requires 0 < n && LastRead(n) <= x <= n
    ensures x % WRAP == 1 <==> x == LastRead(n)
    ensures (x % WRAP + WRAP - 1) % WRAP == (x - 1) % WRAP
  {
  }

  lemma ReleasedLeft(v: Block, m: nat, was: Block, n: nat, x: nat)
    requires v != 0 && v != was && 0 < x <= n
    ensures var refs := Left(was, n, x) + map[v := m % WRAP];
            && (was == 0 || was in refs <==> was == 0 || LastRead(n) <= x)
            && (was == 0 || was in refs ==> Released(refs, was) == Left(was, n, x - 1) + map[v := m % WRAP])
  {
    if LastRead(n) <= x { ReadsOne(n, x); }
  }

  lemma RetainedWith(left: map<Block, nat>, v: Block, m: nat)
    ensures (left + map[v := m % WRAP])[v := (m % WRAP + 1) % WRAP] == left + map[v := (m + 1) % WRAP]
  {
    assert (m % WRAP + 1) % WRAP == (m + 1) % WRAP;
  }

  /** What an operation starts from and what it ends with. */
  lemma OperationEnds(v: Block, was: Block, n: nat)
    requires v != 0 && v != was && n > 0
    ensures v !in Left(was, n, n) && Left(was, n, n)[v := 1] == Left(was, n, n) + map[v := 1 % WRAP]
    ensures Left(was, n, 0) + map[v := n % WRAP] == Left(v, n, n)
  {
  }

  /** The producer's source slot, last, after its `k` target slots; and the blocks on the heap. */
  class Prototype {
    var refs: map<Block, nat>
    var slots: seq<Block>

    constructor (k: nat)
      ensures |slots| == k + 1 && Settled(0)
    {
      refs := map[];
      slots := seq(k + 1, _ => 0);
    }

    /** Every slot names `b`, and `b`, when it is a block, is alone on the heap with one count for each slot. */
    ghost predicate Settled(b: Block)
      reads this
    {
      slots != [] && Reached(slots, b, b, 0) && refs == Left(b, |slots|, |slots|)
    }

    /** A new block at the address the heap gives, with its producer's reference. */
    method Loan(v: Block)
      requires v != 0 && v !in refs
      modifies `refs
      ensures refs == old(refs)[v := 1]
    {
      refs := refs[v := 1];
    }

    method Retain(v: Block)
      requires v in refs
      modifies `refs
      ensures refs == old(refs)[v := (old(refs)[v] + 1) % WRAP]
    {
      refs := refs[v := (refs[v] + 1) % WRAP];
    }

    /** Not `alive` when the block has been deleted: the count would be read from freed memory. */
    method Release(b: Block) returns (alive: bool)
      modifies `refs
      ensures alive <==> b == 0 || b in old(refs)
      ensures refs == if alive then Released(old(refs), b) else old(refs)
    {
      alive := b == 0 || b in refs;
      if alive && b != 0 {
        var r := refs[b];
        refs := refs[b := (r + WRAP - 1) % WRAP];
        if r == 1 { refs := refs - {b}; }
      }
    }

    /** Exchange, then let go of what the slot held before. */
    method Publish(s: nat, v: Block) returns (alive: bool)
      requires s < |slots|
      modifies this
      ensures slots == old(slots)[s := v]
      ensures alive <==> old(slots)[s] == 0 || old(slots)[s] in old(refs)
      ensures refs == if alive then Released(old(refs), old(slots)[s]) else old(refs)
    {
      var was := slots[s];
      slots := slots[s := v];
      alive := Release(was);
    }

    /** `v` has reached the first `s` slots; the producer holds one reference besides. */
    ghost predicate Midway(v: Block, was: Block, s: nat)
      reads this
    {
      s < |slots| && Reached(slots, v, was, s) && refs == Left(was, |slots|, |slots| - s) + map[v := (s + 1) % WRAP]
    }

    /** One more share: a reference for target `s`, then the exchange. */
    method Share(s: nat, v: Block, ghost was: Block) returns (alive: bool)
      requires s + 1 < |slots| && v != 0 && v != was && Midway(v, was, s)
      modifies this
      ensures |slots| == old(|slots|)
      ensures alive <==> was == 0 || LastRead(|slots|) <= |slots| - s
      ensures alive ==> Midway(v, was, s + 1)
    {
      RetainedWith(Left(was, |slots|, |slots| - s), v, s + 1);
      Retain(v);
      ReleasedLeft(v, s + 2, was, |slots|, |slots| - s);
      alive := Publish(s, v);
    }

    /**
     * One measured operation: loan, a share to each target, the producer's own reference to the
     * source slot. The block published before is freed on the way, wherever it was. It stops short
     * exactly when there is such a block and the slots are more than 2^32.
     */
    method Operate(v: Block, ghost was: Block) returns (alive: bool)
      requires Settled(was) && v != 0 && v != was
      modifies this
      ensures |slots| == old(|slots|)
      ensures alive <==> was == 0 || |slots| <= WRAP
      ensures alive ==> Settled(v)
    {
      LastReadIsLast(|slots|);
      OperationEnds(v, was, |slots|);
      Loan(v);
      var k := |slots| - 1;
      for s := 0 to k
        invariant |slots| == k + 1 && Midway(v, was, s)
        invariant was == 0 || LastRead(k + 1) <= k + 1 - s + 1
      {
        alive := Share(s, v, was);
        if !alive { return; }
      }
      ReleasedLeft(v, k + 1, was, k + 1, 1);
      alive := Publish(k, v);
    }

    /** The slots' destructors: nothing is left, unless the block is deleted with slots still naming it. */
    method Teardown(ghost b: Block) returns (alive: bool)
      requires Settled(b)
      modifies `refs
      ensures alive <==> b == 0 || |slots| <= WRAP
      ensures alive ==> refs == map[]
    {
      alive := true;
      LastReadIsLast(|slots|);
      for s := 0 to |slots|
        invariant alive && refs == Left(b, |slots|, |slots| - s)
        invariant b == 0 || LastRead(|slots|) <= |slots| - s + 1
      {
        if b != 0 && LastRead(|slots|) <= |slots| - s { ReadsOne(|slots|, |slots| - s); }
        alive := Release(slots[s]);
        if !alive { return; }
      }
    }
  }

  /**
   * A whole run over `k` targets: one operation for each address the heap gave, then the teardown.
   * It leaves nothing and touches no freed block if and only if the slots are at most 2^32.
   */
  method RunPrototype(k: nat, addresses: seq<Block>) returns (alive: bool, left: map<Block, nat>)
    requires forall j :: 0 <= j < |addresses| ==> addresses[j] != 0 && (j > 0 ==> addresses[j] != addresses[j - 1])
    ensures alive <==> addresses == [] || k + 1 <= WRAP
    ensures alive ==> left == map[]
  {
    var p := new Prototype(k);
    left := p.refs;
    for j := 0 to |addresses|
      invariant fresh(p) && |p.slots| == k + 1 && p.Settled(if j == 0 then 0 else addresses[j - 1])
    {
      alive := p.Operate(addresses[j], if j == 0 then 0 else addresses[j - 1]);
      if !alive { return; }
    }
    alive := p.Teardown(if addresses == [] then 0 else addresses[|addresses| - 1]);
    left := p.refs;
  }
}
