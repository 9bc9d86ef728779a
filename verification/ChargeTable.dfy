/**
 The window charge table of the forward-heap bench: an open-addressed, linearly probed
 table from a heap block to the bytes this window charged for it. No slot ever goes back to
 null. A slot left by an earlier window, or by a freed block, is reused by a later insert.
 */
module ChargeTable {
  import ByteOrder

  const CHARGES: nat := 0x1_0000
  const PROBE_CAP: nat := 64
  const EXACT_FIT_MAX: nat := 0x2_0000

  /** A heap address; 0 is the null pointer. */
  type Ptr = p: int | 0 <= p < ByteOrder.U64

  const NULL: Ptr := 0

  datatype Slot = Slot(p: Ptr, window: nat, bytes: nat)

  // --- What a block is charged ------------------------------------------------------------

  /** glibc's usable size for an exact-fit chunk: 8 bytes of header, 16-byte steps, 32 at least. */
  function ExactFitUsable(req: nat): nat {
    var chunk := (req + 8 + 15) / 16 * 16;
    (if chunk < 32 then 32 else chunk) - 8
  }

  /** The exact fit is the least legal usable size that holds the request. */
  lemma ExactFitIsLeast(req: nat)
    ensures ExactFitUsable(req) >= req && ExactFitUsable(req) >= 24 && ExactFitUsable(req) % 16 == 8
    ensures forall u: nat :: u >= req && u >= 24 && u % 16 == 8 ==> ExactFitUsable(req) <= u
  {
  }

  /** What a window block of `size` requested and `usable` granted bytes is charged. */
  function ChargeBytes(size: nat, usable: nat, exactFit: bool): nat {
    var fit := ExactFitUsable(size);
    if exactFit && size < EXACT_FIT_MAX && fit <= usable then fit else usable
  }

  /** Heap history cannot reach the charge: any two chunks that hold an exact fit are charged alike. */
  lemma ChargeIgnoresChunkHistory(size: nat, usable: nat, usable': nat)
    requires size < EXACT_FIT_MAX
    requires ExactFitUsable(size) <= usable && ExactFitUsable(size) <= usable'
    ensures ChargeBytes(size, usable, true) == ChargeBytes(size, usable', true)
    ensures size <= ChargeBytes(size, usable, true) <= usable
  {
    ExactFitIsLeast(size);
  }

  // --- Probing ----------------------------------------------------------------------------

  /** The slot an address hashes to: the top 16 bits of a 64-bit Fibonacci product. */
  function ChargeSlot(p: Ptr): (i: nat)
    ensures i < CHARGES
  {
    p / 16 * 0x9E37_79B9_7F4A_7C15 % ByteOrder.U64 / 0x1_0000_0000_0000
  }

  /** The `n`-th slot of the probe sequence of `p`. */
  function Home(p: Ptr, n: nat): (i: nat)
    ensures i < CHARGES
  {
    (ChargeSlot(p) + n) % CHARGES
  }

  lemma HomeNext(p: Ptr, n: nat)
    ensures Home(p, 0) == ChargeSlot(p) && Home(p, n + 1) == (Home(p, n) + 1) % CHARGES
  {
    NextSlot(ChargeSlot(p), n);
  }

  lemma NextSlot(h: nat, n: nat)
    requires h < CHARGES
    ensures (h + 0) % CHARGES == h && (h + (n + 1)) % CHARGES == ((h + n) % CHARGES + 1) % CHARGES
  {
  }

  predicate LiveSlot(s: Slot, w: nat) {
    s.p != NULL && s.window == w
  }

  /** Whether an insert of `p` walks past this slot. */
  predicate InsertPasses(s: Slot, p: Ptr, w: nat) {
    LiveSlot(s, w) && s.p != p
  }

  /** Whether a lookup of `p` walks past this slot. */
  predicate LookupPasses(s: Slot, p: Ptr, w: nat) {
    s.p != NULL && !(s.p == p && s.window == w)
  }

  /** How many slots an insert walks past, starting after `n` of them. */
  function InsertProbe(t: seq<Slot>, p: Ptr, w: nat, n: nat): (k: nat)
    requires |t| == CHARGES && n <= PROBE_CAP
    ensures n <= k <= PROBE_CAP
    decreases PROBE_CAP - n
  {
    if n < PROBE_CAP && InsertPasses(t[Home(p, n)], p, w) then InsertProbe(t, p, w, n + 1) else n
  }

  /** How many slots a lookup walks past, starting after `n` of them. */
  function LookupProbe(t: seq<Slot>, p: Ptr, w: nat, n: nat): (k: nat)
    requires |t| == CHARGES && n <= PROBE_CAP
    ensures n <= k <= PROBE_CAP
    decreases PROBE_CAP - n
  {
    if n < PROBE_CAP && LookupPasses(t[Home(p, n)], p, w) then LookupProbe(t, p, w, n + 1) else n
  }

  /** The table after charging `bytes` to `p` in window `w`. */
  function Charged(t: seq<Slot>, p: Ptr, w: nat, bytes: nat): (t': seq<Slot>)
    requires |t| == CHARGES
    ensures |t'| == CHARGES
  {
    var n := InsertProbe(t, p, w, 0);
    if n < PROBE_CAP then t[Home(p, n) := Slot(p, w, bytes)] else t
  }

  /** Whether a lookup of `p` ends on an entry of window `w`. */
  predicate Hit(t: seq<Slot>, p: Ptr, w: nat)
    requires |t| == CHARGES
  {
    var n := LookupProbe(t, p, w, 0);
    n < PROBE_CAP && t[Home(p, n)].p != NULL
  }

  /** The table after the free of `p` in window `w`: a hit becomes a dead slot. */
  function Discharged(t: seq<Slot>, p: Ptr, w: nat): (t': seq<Slot>)
    requires |t| == CHARGES
    ensures |t'| == CHARGES
  {
    if !Hit(t, p, w) then t
    else
      var i := Home(p, LookupProbe(t, p, w, 0));
      t[i := t[i].(window := 0)]
  }

  /** What the free of `p` takes off the balance. */
  function DischargeBytes(t: seq<Slot>, p: Ptr, w: nat): nat
    requires |t| == CHARGES
  {
    if Hit(t, p, w) then t[Home(p, LookupProbe(t, p, w, 0))].bytes else 0
  }

  // --- The refinement: the table is a map -------------------------------------------------

  /** Slot number `n` of `p`'s probe sequence is the one a lookup of `p` stops at, on a hit. */
  ghost predicate FoundAt(t: seq<Slot>, p: Ptr, w: nat, n: nat)
    requires |t| == CHARGES
  {
    && n < PROBE_CAP
    && t[Home(p, n)].p == p && t[Home(p, n)].window == w
    && forall m: nat :: m < n ==> LookupPasses(t[Home(p, m)], p, w)
  }

  /** Every live slot is the one that a lookup of its own block stops at. */
  ghost predicate Sound(t: seq<Slot>, w: nat) {
    && |t| == CHARGES
    && forall j :: 0 <= j < CHARGES && LiveSlot(t[j], w) ==> Reached(t, w, j)
  }

  ghost predicate Reached(t: seq<Slot>, w: nat, j: nat)
    requires |t| == CHARGES && j < CHARGES
  {
    exists n: nat :: FoundAt(t, t[j].p, w, n) && Home(t[j].p, n) == j
  }

  /**
   The refinement: `t`, read in window `w`, is the map `m` from block to charge. A lookup hits
   exactly the blocks of `m`, reads their charge, and stops at their only live slot.
   */
  ghost predicate Represents(t: seq<Slot>, w: nat, m: map<Ptr, nat>) {
    && Sound(t, w)
    && NULL !in m
    && (forall p :: p in m ==> Hit(t, p, w) && DischargeBytes(t, p, w) == m[p])
    && (forall p :: p != NULL && Hit(t, p, w) ==> p in m)
  }

  lemma {:induction false} LookupProbeFinds(t: seq<Slot>, p: Ptr, w: nat, n: nat, k: nat)
    requires |t| == CHARGES && k <= n
    requires FoundAt(t, p, w, n)
    ensures LookupProbe(t, p, w, k) == n
    decreases n - k
  {
    if k < n {
      LookupProbeFinds(t, p, w, n, k + 1);
    }
  }

  lemma {:induction false} LookupProbeStops(t: seq<Slot>, p: Ptr, w: nat, k: nat)
    requires |t| == CHARGES && k <= PROBE_CAP
    ensures forall m: nat :: k <= m < LookupProbe(t, p, w, k) ==> LookupPasses(t[Home(p, m)], p, w)
    ensures var n := LookupProbe(t, p, w, k); n < PROBE_CAP ==> !LookupPasses(t[Home(p, n)], p, w)
    decreases PROBE_CAP - k
  {
    if k < PROBE_CAP && LookupPasses(t[Home(p, k)], p, w) {
      LookupProbeStops(t, p, w, k + 1);
    }
  }

  lemma {:induction false} InsertProbeStops(t: seq<Slot>, p: Ptr, w: nat, k: nat)
    requires |t| == CHARGES && k <= PROBE_CAP
    ensures forall m: nat :: k <= m < InsertProbe(t, p, w, k) ==> InsertPasses(t[Home(p, m)], p, w)
    ensures var n := InsertProbe(t, p, w, k); n < PROBE_CAP ==> !InsertPasses(t[Home(p, n)], p, w)
    decreases PROBE_CAP - k
  {
    if k < PROBE_CAP && InsertPasses(t[Home(p, k)], p, w) {
      InsertProbeStops(t, p, w, k + 1);
    }
  }

  /** Two slots of one probe sequence within the cap are different slots. */
  lemma HomeInjective(p: Ptr, n: nat, m: nat)
    requires n < PROBE_CAP && m < PROBE_CAP && Home(p, n) == Home(p, m)
    ensures n == m
  {
  }

  /** A lookup hits exactly when some slot is where it can be found. */
  lemma HitIffFound(t: seq<Slot>, p: Ptr, w: nat)
    requires |t| == CHARGES && p != NULL
    ensures Hit(t, p, w) <==> exists n: nat :: FoundAt(t, p, w, n)
    ensures Hit(t, p, w) ==> FoundAt(t, p, w, LookupProbe(t, p, w, 0))
  {
    LookupProbeStops(t, p, w, 0);
    if Hit(t, p, w) {
      assert FoundAt(t, p, w, LookupProbe(t, p, w, 0));
    }
    if n: nat :| FoundAt(t, p, w, n) {
      LookupProbeFinds(t, p, w, n, 0);
    }
  }

  /** In a sound table a live slot is the one its block's lookup stops at. */
  lemma LiveSlotIsHit(t: seq<Slot>, w: nat, j: nat)
    requires Sound(t, w) && j < CHARGES && LiveSlot(t[j], w)
    ensures Hit(t, t[j].p, w) && Home(t[j].p, LookupProbe(t, t[j].p, w, 0)) == j
  {
    assert Reached(t, w, j);
    var n: nat :| FoundAt(t, t[j].p, w, n) && Home(t[j].p, n) == j;
    LookupProbeFinds(t, t[j].p, w, n, 0);
  }

  /** A block of the map has exactly one live slot, and it holds the block's charge. */
  lemma OneLiveSlot(t: seq<Slot>, w: nat, m: map<Ptr, nat>, p: Ptr)
    requires Represents(t, w, m) && p != NULL
    ensures p in m ==> exists j :: 0 <= j < CHARGES && t[j] == Slot(p, w, m[p])
    ensures p !in m ==> forall j :: 0 <= j < CHARGES ==> !(LiveSlot(t[j], w) && t[j].p == p)
    ensures forall j, k | 0 <= j < CHARGES && 0 <= k < CHARGES ::
              LiveSlot(t[j], w) && LiveSlot(t[k], w) && t[j].p == t[k].p == p ==> j == k
  {
    if p in m {
      HitIffFound(t, p, w);
      var i := Home(p, LookupProbe(t, p, w, 0));
      assert t[i] == Slot(p, w, m[p]);
    }
    forall j | 0 <= j < CHARGES && LiveSlot(t[j], w) && t[j].p == p
      ensures p in m && j == Home(p, LookupProbe(t, p, w, 0))
    {
      LiveSlotIsHit(t, w, j);
    }
  }

  /** An insert that stays within the cap stores the block where a lookup will find it. */
  lemma ChargeFound(t: seq<Slot>, p: Ptr, w: nat, bytes: nat)
    requires |t| == CHARGES && p != NULL && InsertProbe(t, p, w, 0) < PROBE_CAP
    ensures FoundAt(Charged(t, p, w, bytes), p, w, InsertProbe(t, p, w, 0))
  {
    var n := InsertProbe(t, p, w, 0);
    InsertProbeStops(t, p, w, 0);
    forall m: nat | m < n ensures LookupPasses(Charged(t, p, w, bytes)[Home(p, m)], p, w) {
      assert InsertPasses(t[Home(p, m)], p, w);
      if Home(p, m) == Home(p, n) { HomeInjective(p, n, m); }
    }
  }

  /** Writing one slot that was not live, and is not taken by `q`, leaves `q` findable. */
  lemma FoundAfterWrite(t: seq<Slot>, i: nat, s: Slot, q: Ptr, w: nat, n: nat)
    requires |t| == CHARGES && i < CHARGES && s.p != NULL
    requires FoundAt(t, q, w, n) && i != Home(q, n)
    requires !(s.p == q && s.window == w)
    ensures FoundAt(t[i := s], q, w, n)
  {
  }

  lemma SoundAfterWrite(t: seq<Slot>, i: nat, s: Slot, w: nat)
    requires Sound(t, w) && i < CHARGES && s.p != NULL
    requires LiveSlot(s, w) ==> !Hit(t, s.p, w) && Reached(t[i := s], w, i)
    ensures Sound(t[i := s], w)
  {
    var t' := t[i := s];
    forall j | 0 <= j < CHARGES && LiveSlot(t'[j], w) ensures Reached(t', w, j) {
      if j != i {
        assert Reached(t, w, j);
        var n: nat :| FoundAt(t, t[j].p, w, n) && Home(t[j].p, n) == j;
        LookupProbeFinds(t, t[j].p, w, n, 0);
        FoundAfterWrite(t, i, s, t[j].p, w, n);
      }
    }
  }

  /** `q`'s entry survives a write that is neither at it nor for it. */
  lemma HitAfterWrite(t: seq<Slot>, i: nat, s: Slot, q: Ptr, w: nat)
    requires i < CHARGES && Sound(t, w) && Sound(t[i := s], w) && q != NULL
    requires !LiveSlot(s, w) || s.p != q
    requires !LiveSlot(t[i], w) || t[i].p != q
    ensures Hit(t, q, w) == Hit(t[i := s], q, w)
    ensures DischargeBytes(t, q, w) == DischargeBytes(t[i := s], q, w)
  {
    var t' := t[i := s];
    HitIffFound(t, q, w);
    HitIffFound(t', q, w);
    if Hit(t, q, w) {
      var j := Home(q, LookupProbe(t, q, w, 0));
      assert LiveSlot(t'[j], w) && t'[j].p == q;
      LiveSlotIsHit(t', w, j);
    }
    if Hit(t', q, w) {
      var j := Home(q, LookupProbe(t', q, w, 0));
      assert LiveSlot(t[j], w) && t[j].p == q;
      LiveSlotIsHit(t, w, j);
    }
  }

  /** Charging a missing block, within the cap, leaves a sound table in which it is found. */
  lemma ChargeSound(t: seq<Slot>, p: Ptr, w: nat, bytes: nat)
    requires Sound(t, w) && p != NULL && !Hit(t, p, w) && InsertProbe(t, p, w, 0) < PROBE_CAP
    ensures !LiveSlot(t[Home(p, InsertProbe(t, p, w, 0))], w)
    ensures var t' := Charged(t, p, w, bytes);
            Sound(t', w) && Hit(t', p, w) && DischargeBytes(t', p, w) == bytes
  {
    var n := InsertProbe(t, p, w, 0);
    var i, s := Home(p, n), Slot(p, w, bytes);
    InsertProbeStops(t, p, w, 0);
    if LiveSlot(t[i], w) { LiveSlotIsHit(t, w, i); }
    ChargeFound(t, p, w, bytes);
    assert Reached(t[i := s], w, i);
    SoundAfterWrite(t, i, s, w);
    LookupProbeFinds(t[i := s], p, w, n, 0);
  }

  /**
   Charging a block that has no charge yet adds exactly that entry, unless the probe cap is hit,
   and then nothing changes.
   */
  lemma ChargeRefinesInsert(t: seq<Slot>, p: Ptr, w: nat, bytes: nat, m: map<Ptr, nat>)
    requires Represents(t, w, m) && p != NULL && p !in m
    ensures Represents(Charged(t, p, w, bytes), w,
                       if InsertProbe(t, p, w, 0) < PROBE_CAP then m[p := bytes] else m)
  {
    var n := InsertProbe(t, p, w, 0);
    if n < PROBE_CAP {
      ChargeSound(t, p, w, bytes);
      forall q: Ptr | q != NULL && q != p ensures SameEntry(t, Charged(t, p, w, bytes), q, w) {
        HitAfterWrite(t, Home(p, n), Slot(p, w, bytes), q, w);
      }
      OneMoreEntry(t, Charged(t, p, w, bytes), p, w, bytes, m);
    }
  }

  /** Both tables answer the same for `q`. */
  ghost predicate SameEntry(t: seq<Slot>, t': seq<Slot>, q: Ptr, w: nat)
    requires |t| == CHARGES && |t'| == CHARGES
  {
    Hit(t, q, w) == Hit(t', q, w) && DischargeBytes(t, q, w) == DischargeBytes(t', q, w)
  }

  lemma OneMoreEntry(t: seq<Slot>, t': seq<Slot>, p: Ptr, w: nat, bytes: nat, m: map<Ptr, nat>)
    requires Represents(t, w, m) && Sound(t', w) && p != NULL && p !in m
    requires Hit(t', p, w) && DischargeBytes(t', p, w) == bytes
    requires forall q: Ptr :: q != NULL && q != p ==> SameEntry(t, t', q, w)
    ensures Represents(t', w, m[p := bytes])
  {
    forall q: Ptr | q in m[p := bytes] ensures Hit(t', q, w) && DischargeBytes(t', q, w) == m[p := bytes][q] {
      if q != p { assert SameEntry(t, t', q, w); }
    }
    forall q: Ptr | q != NULL && Hit(t', q, w) ensures q in m[p := bytes] {
      if q != p { assert SameEntry(t, t', q, w); }
    }
  }

  /** Freeing a block whose lookup hits leaves a sound table in which the lookup misses. */
  lemma DischargeKills(t: seq<Slot>, p: Ptr, w: nat)
    requires Sound(t, w) && p != NULL && w != 0 && Hit(t, p, w)
    ensures Sound(Discharged(t, p, w), w) && !Hit(Discharged(t, p, w), p, w)
  {
    var i := Home(p, LookupProbe(t, p, w, 0));
    var t' := Discharged(t, p, w);
    HitIffFound(t, p, w);
    SoundAfterWrite(t, i, t[i].(window := 0), w);
    HitIffFound(t', p, w);
    forall n: nat | n < PROBE_CAP ensures !FoundAt(t', p, w, n) {
      if Home(p, n) != i && t[Home(p, n)] == t'[Home(p, n)] && FoundAt(t', p, w, n) {
        LiveSlotIsHit(t, w, Home(p, n));
      }
    }
  }

  /** Freeing a block takes off exactly its charge, or 0 when it has none, and drops its entry. */
  lemma DischargeRefinesRemove(t: seq<Slot>, p: Ptr, w: nat, m: map<Ptr, nat>)
    requires Represents(t, w, m) && p != NULL && w != 0
    ensures Represents(Discharged(t, p, w), w, m - {p})
    ensures DischargeBytes(t, p, w) == if p in m then m[p] else 0
  {
    HitIffFound(t, p, w);
    if Hit(t, p, w) {
      var t' := Discharged(t, p, w);
      var i := Home(p, LookupProbe(t, p, w, 0));
      DischargeKills(t, p, w);
      forall q: Ptr | q != NULL && q != p
        ensures Hit(t, q, w) == Hit(t', q, w) && DischargeBytes(t, q, w) == DischargeBytes(t', q, w)
      {
        HitAfterWrite(t, i, t[i].(window := 0), q, w);
      }
    } else {
      assert m - {p} == m;
    }
  }

  /** A window starts empty exactly when no slot carries its number. */
  lemma FreshWindowEmpty(t: seq<Slot>, w: nat)
    requires |t| == CHARGES
    ensures Represents(t, w, map[]) <==> forall j :: 0 <= j < CHARGES ==> !LiveSlot(t[j], w)
  {
    if Represents(t, w, map[]) {
      forall j | 0 <= j < CHARGES ensures !LiveSlot(t[j], w) {
        if LiveSlot(t[j], w) { LiveSlotIsHit(t, w, j); }
      }
    } else if p: Ptr :| p != NULL && Hit(t, p, w) {
      HitIffFound(t, p, w);
      assert LiveSlot(t[Home(p, LookupProbe(t, p, w, 0))], w);
    }
  }

  // --- Every slot lies on its block's path ------------------------------------------------

  /** Slot number `n` of `x`'s probe sequence holds `x`, whatever its window, behind slots that are not null. */
  ghost predicate OnPath(t: seq<Slot>, x: Ptr, n: nat)
    requires |t| == CHARGES
  {
    n < PROBE_CAP && t[Home(x, n)].p == x && forall m: nat :: m < n ==> t[Home(x, m)].p != NULL
  }

  ghost predicate Rooted(t: seq<Slot>, j: nat)
    requires |t| == CHARGES && j < CHARGES
  {
    exists n: nat :: OnPath(t, t[j].p, n) && Home(t[j].p, n) == j
  }

  /** Every slot of window `w` lies on its own block's path. */
  ghost predicate RootedIn(t: seq<Slot>, w: nat) {
    |t| == CHARGES && forall j :: 0 <= j < CHARGES && LiveSlot(t[j], w) ==> Rooted(t, j)
  }

  ghost predicate AllRooted(t: seq<Slot>) {
    |t| == CHARGES && forall w: nat :: RootedIn(t, w)
  }

  /** A write of a block on its path keeps every slot on its own. */
  lemma RootedAfterWrite(t: seq<Slot>, i: nat, s: Slot, n: nat, w: nat)
    requires RootedIn(t, w) && s.p != NULL && n < PROBE_CAP && Home(s.p, n) == i
    requires forall m: nat :: m < n ==> t[Home(s.p, m)].p != NULL
    ensures RootedIn(t[i := s], w)
  {
    var t' := t[i := s];
    forall j | 0 <= j < CHARGES && LiveSlot(t'[j], w) ensures Rooted(t', j) {
      if j == i {
        assert OnPath(t', s.p, n);
      } else {
        assert Rooted(t, j);
        var m: nat :| OnPath(t, t[j].p, m) && Home(t[j].p, m) == j;
        assert OnPath(t', t[j].p, m);
      }
    }
  }

  /** A table that represents a map is so in its window. */
  lemma SoundIsRooted(t: seq<Slot>, w: nat)
    requires Sound(t, w)
    ensures RootedIn(t, w)
  {
    forall j | 0 <= j < CHARGES && LiveSlot(t[j], w) ensures Rooted(t, j) {
      assert Reached(t, w, j);
      var n: nat :| FoundAt(t, t[j].p, w, n) && Home(t[j].p, n) == j;
      assert OnPath(t, t[j].p, n);
    }
  }

  /** A slot of window `w` on the path of its block makes the block's lookup hit. */
  lemma OnPathIsHit(t: seq<Slot>, q: Ptr, w: nat, n: nat)
    requires |t| == CHARGES && q != NULL && OnPath(t, q, n) && t[Home(q, n)].window == w
    ensures Hit(t, q, w)
  {
    LookupProbeStops(t, q, w, 0);
    var k := LookupProbe(t, q, w, 0);
    assert !LookupPasses(t[Home(q, n)], q, w);
    assert k <= n;
  }

  /** A write that is neither over nor of an entry of `q` does not change what `q`'s lookup reads. */
  lemma OthersReadTheSame(t: seq<Slot>, i: nat, s: Slot, q: Ptr, w: nat)
    requires RootedIn(t, w) && i < CHARGES && s.p != NULL && q != NULL
    requires !(s.p == q && s.window == w) && !(t[i].p == q && t[i].window == w)
    ensures SameEntry(t, t[i := s], q, w)
  {
    var t' := t[i := s];
    HitIffFound(t, q, w);
    HitIffFound(t', q, w);
    if Hit(t, q, w) {
      var n := LookupProbe(t, q, w, 0);
      FoundAfterWrite(t, i, s, q, w, n);
      LookupProbeFinds(t', q, w, n, 0);
    } else if Hit(t', q, w) {
      var j := Home(q, LookupProbe(t', q, w, 0));
      assert t[j].p == q && t[j].window == w;
      assert Rooted(t, j);
      var n: nat :| OnPath(t, q, n) && Home(q, n) == j;
      OnPathIsHit(t, q, w, n);
    }
  }

  lemma ChargedRooted(t: seq<Slot>, p: Ptr, w: nat, bytes: nat, v: nat)
    requires RootedIn(t, v) && p != NULL
    ensures RootedIn(Charged(t, p, w, bytes), v)
  {
    var n := InsertProbe(t, p, w, 0);
    InsertProbeStops(t, p, w, 0);
    if n < PROBE_CAP {
      assert forall m: nat :: m < n ==> InsertPasses(t[Home(p, m)], p, w);
      RootedAfterWrite(t, Home(p, n), Slot(p, w, bytes), n, v);
    }
  }

  /** What a charge of `p` does for `p`, in any window of any table: its lookup reads it, or misses at the cap. */
  lemma ChargeReads(t: seq<Slot>, p: Ptr, w: nat, bytes: nat)
    requires |t| == CHARGES && p != NULL
    ensures var t' := Charged(t, p, w, bytes);
            if InsertProbe(t, p, w, 0) < PROBE_CAP then Hit(t', p, w) && DischargeBytes(t', p, w) == bytes
            else t' == t && !Hit(t, p, w)
  {
    var n := InsertProbe(t, p, w, 0);
    InsertProbeStops(t, p, w, 0);
    if n < PROBE_CAP {
      ChargeFound(t, p, w, bytes);
      LookupProbeFinds(Charged(t, p, w, bytes), p, w, n, 0);
    } else {
      LookupProbeStops(t, p, w, 0);
    }
  }

  lemma ChargeKeepsOthers(t: seq<Slot>, p: Ptr, w: nat, bytes: nat, q: Ptr)
    requires RootedIn(t, w) && p != NULL && q != NULL && q != p
    ensures SameEntry(t, Charged(t, p, w, bytes), q, w)
  {
    var n := InsertProbe(t, p, w, 0);
    InsertProbeStops(t, p, w, 0);
    if n < PROBE_CAP { OthersReadTheSame(t, Home(p, n), Slot(p, w, bytes), q, w); }
  }

  lemma DischargeKeepsOthers(t: seq<Slot>, p: Ptr, w: nat, q: Ptr)
    requires RootedIn(t, w) && p != NULL && q != NULL && q != p
    ensures SameEntry(t, Discharged(t, p, w), q, w)
  {
    HitIffFound(t, p, w);
    if Hit(t, p, w) {
      var i := Home(p, LookupProbe(t, p, w, 0));
      OthersReadTheSame(t, i, t[i].(window := 0), q, w);
    }
  }

  lemma DischargedRooted(t: seq<Slot>, p: Ptr, w: nat, v: nat)
    requires RootedIn(t, v) && p != NULL
    ensures RootedIn(Discharged(t, p, w), v)
  {
    HitIffFound(t, p, w);
    if Hit(t, p, w) {
      var n := LookupProbe(t, p, w, 0);
      assert forall m: nat :: m < n ==> LookupPasses(t[Home(p, m)], p, w);
      RootedAfterWrite(t, Home(p, n), t[Home(p, n)].(window := 0), n, v);
    }
  }

  // --- What every block's free would take off ----------------------------------------------

  /** In a window `n` that recorded `m`, the free of `p` would take off what was recorded of it. */
  ghost predicate ReadsOwn(t: seq<Slot>, n: nat, m: map<Ptr, nat>, p: Ptr)
    requires |t| == CHARGES
  {
    if p in m then Hit(t, p, n) && DischargeBytes(t, p, n) == m[p] else DischargeBytes(t, p, n) == 0
  }

  ghost predicate AllReadOwn(t: seq<Slot>, n: nat, m: map<Ptr, nat>, ps: set<Ptr>)
    requires |t| == CHARGES
  {
    forall p :: p in ps ==> ReadsOwn(t, n, m, p)
  }

  /** A charge is read by its own block, if it fits, and by no other. */
  lemma ChargeAllRead(t: seq<Slot>, n: nat, m: map<Ptr, nat>, ps: set<Ptr>, p: Ptr, b: nat)
    requires RootedIn(t, n) && AllReadOwn(t, n, m, ps) && NULL !in ps && p != NULL && p !in ps && p !in m
    ensures var m' := if InsertProbe(t, p, n, 0) < PROBE_CAP then m[p := b] else m;
            AllReadOwn(Charged(t, p, n, b), n, m', ps + {p})
  {
    ChargeReads(t, p, n, b);
    forall q | q in ps ensures SameEntry(t, Charged(t, p, n, b), q, n) && ReadsOwn(t, n, m, q) {
      ChargeKeepsOthers(t, p, n, b, q);
    }
  }

  lemma DischargeAllRead(t: seq<Slot>, n: nat, m: map<Ptr, nat>, ps: set<Ptr>, p: Ptr)
    requires RootedIn(t, n) && AllReadOwn(t, n, m, ps) && NULL !in ps && p != NULL
    ensures AllReadOwn(Discharged(t, p, n), n, m - {p}, ps - {p})
  {
    forall q | q in ps - {p} ensures SameEntry(t, Discharged(t, p, n), q, n) && ReadsOwn(t, n, m, q) {
      DischargeKeepsOthers(t, p, n, q);
    }
  }

  lemma AllRootedSteps(t: seq<Slot>, p: Ptr, w: nat, bytes: nat)
    requires AllRooted(t) && p != NULL
    ensures AllRooted(Charged(t, p, w, bytes)) && AllRooted(Discharged(t, p, w))
  {
    forall v: nat ensures RootedIn(Charged(t, p, w, bytes), v) && RootedIn(Discharged(t, p, w), v) {
      ChargedRooted(t, p, w, bytes, v);
      DischargedRooted(t, p, w, v);
    }
  }
}
