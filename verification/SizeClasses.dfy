/**
 * The size-class table: the smallest row that holds a request, found by searching the table, by a
 * lookup with one slot for every 16 bytes, and by the slab pool's `class_of`; and what a
 * connection is charged for a block.
 */
module SizeClasses {
  import ByteOrder
  import opened MinMax
  import opened NumberSet

  /** Every row is a multiple of this, the platform allocator's own alignment. */
  const GRAIN: nat := 16
  /** The highest alignment a block of a class can be asked for. */
  const HEADER_BYTES: nat := 64
  /** Requests up to this size find their class by one load. */
  const LOOKUP_BYTES: nat := 4096

  // --- Tables -----------------------------------------------------------------------------------

  ghost predicate Valid(rows: seq<nat>) {
    0 < |rows| <= 255 && Ascending(rows) && forall i :: 0 <= i < |rows| ==> rows[i] > 0 && rows[i] % GRAIN == 0
  }

  /** The first row from `i` on that holds `bytes`; the number of rows when there is none. */
  function FirstFit(rows: seq<nat>, bytes: nat, i: nat): (r: nat)
    requires i <= |rows|
    ensures i <= r <= |rows| && (r < |rows| ==> rows[r] >= bytes)
    ensures forall k :: i <= k < r ==> rows[k] < bytes
    decreases |rows| - i
  {
    if i == |rows| || rows[i] >= bytes then i else FirstFit(rows, bytes, i + 1)
  }

  /** The block for a request: the smallest row that holds it, or the request itself past the last row. */
  function Search(rows: seq<nat>, bytes: nat): nat {
    var i := FirstFit(rows, bytes, 0);
    if i == |rows| then bytes else rows[i]
  }

  /** `c` is the smallest row that holds `bytes`. */
  ghost predicate IsLeast(rows: seq<nat>, bytes: nat, c: nat) {
    c in rows && c >= bytes && forall r :: r in rows && r >= bytes ==> c <= r
  }

  lemma SearchIsLeast(rows: seq<nat>, bytes: nat)
    requires Ascending(rows) && exists r :: r in rows && r >= bytes
    ensures IsLeast(rows, bytes, Search(rows, bytes))
  {
    var i := FirstFit(rows, bytes, 0);
    var r :| r in rows && r >= bytes;
    var k :| 0 <= k < |rows| && rows[k] == r;
    assert i <= k;
  }

  lemma LeastIsUnique(rows: seq<nat>, bytes: nat, c: nat)
    requires Ascending(rows) && IsLeast(rows, bytes, c)
    ensures Search(rows, bytes) == c
  {
    SearchIsLeast(rows, bytes);
  }

  /** A place between rows too small and a row that fits is where the search ends. */
  lemma FitIsUnique(rows: seq<nat>, bytes: nat, r: nat)
    requires Ascending(rows) && r <= |rows|
    requires (r < |rows| ==> rows[r] >= bytes) && (r > 0 ==> rows[r - 1] < bytes)
    ensures FirstFit(rows, bytes, 0) == r
  {
  }

  // --- The lookup -------------------------------------------------------------------------------

  /** Fill the first `n` slots: slot `q` gets the first row of at least `16 q` bytes. One pass over both. */
  method FillSlots(rows: seq<nat>, t: array<nat>, n: nat)
    requires Ascending(rows) && n <= t.Length
    modifies t
    ensures forall q :: 0 <= q < n ==> t[q] == FirstFit(rows, q * GRAIN, 0)
    ensures forall q :: n <= q < t.Length ==> t[q] == old(t[q])
  {
    var r := 0;
    for q := 0 to n
      invariant r <= |rows| && (r > 0 ==> rows[r - 1] < q * GRAIN)
      invariant forall k :: 0 <= k < q ==> t[k] == FirstFit(rows, k * GRAIN, 0)
      invariant forall k :: n <= k < t.Length ==> t[k] == old(t[k])
    {
      while r < |rows| && rows[r] < q * GRAIN
        invariant r <= |rows| && (r > 0 ==> rows[r - 1] < q * GRAIN)
      {
        r := r + 1;
      }
      FitIsUnique(rows, q * GRAIN, r);
      t[q] := r;
    }
  }

  function Last(rows: seq<nat>): nat
    requires rows != []
  {
    rows[|rows| - 1]
  }

  /** What the finished lookup holds: its last slot is past the table. */
  ghost predicate IsLookup(rows: seq<nat>, slot: seq<nat>) {
    && rows != [] && |slot| == Last(rows) / GRAIN + 2 && slot[|slot| - 1] == |rows|
    && forall q :: 0 <= q < |slot| - 1 ==> slot[q] == FirstFit(rows, q * GRAIN, 0)
  }

  method BuildLookup(rows: seq<nat>) returns (t: array<nat>)
    requires Valid(rows)
    ensures IsLookup(rows, t[..])
  {
    var slots := Last(rows) / GRAIN + 2;
    t := new nat[slots];
    FillSlots(rows, t, slots - 1);
    t[slots - 1] := |rows|;
  }

  /** Clamp, round up to a slot, two loads, and the request itself past the table. */
  function LookupCeiling(rows: seq<nat>, slot: seq<nat>, bytes: nat): nat
    requires IsLookup(rows, slot)
  {
    var clamped := Min(bytes, (|slot| - 1) * GRAIN);
    var i := slot[(clamped + GRAIN - 1) / GRAIN];
    Max(if i < |rows| then rows[i] else 0, bytes)
  }

  /** A row is below a request exactly when it is below the request rounded up to a slot. */
  lemma SlotFit(rows: seq<nat>, bytes: nat)
    requires Valid(rows)
    ensures FirstFit(rows, (bytes + GRAIN - 1) / GRAIN * GRAIN, 0) == FirstFit(rows, bytes, 0)
  {
    var up := (bytes + GRAIN - 1) / GRAIN * GRAIN;
    var i := FirstFit(rows, bytes, 0);
    assert i < |rows| ==> rows[i] >= up by {
      if i < |rows| { assert rows[i] % GRAIN == 0; }
    }
    FitIsUnique(rows, up, i);
  }

  /** A request past the last row reads the slot past the table. */
  lemma PastTheTable(rows: seq<nat>, slot: seq<nat>, bytes: nat)
    requires Valid(rows) && IsLookup(rows, slot) && bytes > Last(rows)
    ensures LookupCeiling(rows, slot, bytes) == bytes
  {
    var last := Last(rows);
    assert last == rows[|rows| - 1] && last % GRAIN == 0;
    assert (Min(bytes, last + GRAIN) + GRAIN - 1) / GRAIN == last / GRAIN + 1;
  }

  lemma WithinTheTable(rows: seq<nat>, slot: seq<nat>, bytes: nat)
    requires Valid(rows) && IsLookup(rows, slot) && bytes <= Last(rows)
    ensures LookupCeiling(rows, slot, bytes) == Search(rows, bytes)
  {
    SlotFit(rows, bytes);
    var last, i := Last(rows), FirstFit(rows, bytes, 0);
    assert last == rows[|rows| - 1] && last % GRAIN == 0;
    assert (bytes + GRAIN - 1) / GRAIN <= last / GRAIN;
    assert i < |rows|;
  }

  /** The lookup answers what a search of the table does, for every request. */
  lemma LookupIsSearch(rows: seq<nat>, slot: seq<nat>, bytes: nat)
    requires Valid(rows) && IsLookup(rows, slot)
    ensures LookupCeiling(rows, slot, bytes) == Search(rows, bytes)
  {
    if bytes <= Last(rows) {
      WithinTheTable(rows, slot, bytes);
    } else {
      PastTheTable(rows, slot, bytes);
      FitIsUnique(rows, bytes, |rows|);
    }
  }

  // --- Alignment --------------------------------------------------------------------------------

  ghost predicate PowerOfTwo(a: nat) {
    a == 1 || (a > 1 && a % 2 == 0 && PowerOfTwo(a / 2))
  }

  /** `x` with the bits below the power of two `a` cleared. */
  function MaskDown(x: nat, a: nat): nat {
    if a <= 1 then x else 2 * MaskDown(x / 2, a / 2)
  }

  /** `x` rounded down to a multiple of `a`. */
  function RoundDown(x: nat, a: nat): nat
    requires a > 0
  {
    x - x % a
  }

  /** Clearing the low bits rounds down. */
  lemma {:induction false} MaskRounds(x: nat, a: nat)
    requires PowerOfTwo(a)
    ensures MaskDown(x, a) == RoundDown(x, a)
  {
    if a > 1 {
      MaskRounds(x / 2, a / 2);
      RoundHalf(x, x / 2, a, a / 2);
    }
  }

  lemma RoundHalf(x: nat, y: nat, a: nat, h: nat)
    requires h > 0 && a == 2 * h && y == x / 2
    ensures RoundDown(x, a) == 2 * RoundDown(y, h)
  {
    var k, r := y / h, y % h;
    assert y == k * h + r;
    HalfRemainder(x, y, h, k, r);
  }

  lemma HalfRemainder(x: nat, y: nat, h: nat, k: nat, r: nat)
    requires h > 0 && y == x / 2 && y == k * h + r && r < h
    ensures x % (2 * h) == 2 * r + x % 2
  {
    assert k * (2 * h) == 2 * (k * h);
    ByteOrder.ModUnique(x, 2 * h, k, 2 * r + x % 2);
  }

  /** An alignment past the platform's pads the request to a multiple of itself, in 64 bits. */
  function Padded(bytes: nat, align: nat): nat {
    if align > GRAIN then RoundDown((bytes + align - 1) % ByteOrder.U64, align) else bytes
  }

  predicate Serves(row: nat, bytes: nat, align: nat) {
    row >= bytes && (align <= GRAIN || row % align == 0)
  }

  /** The first row from `i` on that holds `bytes` and keeps `align`. */
  function FirstServing(rows: seq<nat>, bytes: nat, align: nat, i: nat): (r: nat)
    requires i <= |rows|
    ensures i <= r <= |rows| && (r < |rows| ==> Serves(rows[r], bytes, align))
    ensures forall k :: i <= k < r ==> !Serves(rows[k], bytes, align)
    decreases |rows| - i
  {
    if i == |rows| || Serves(rows[i], bytes, align) then i else FirstServing(rows, bytes, align, i + 1)
  }

  /** The class a request is served from; the number of rows when it is served by none. */
  function Class(rows: seq<nat>, bytes: nat, align: nat): nat {
    if align > HEADER_BYTES then |rows| else FirstServing(rows, Padded(bytes, align), align, 0)
  }

  lemma ServingIs(rows: seq<nat>, bytes: nat, align: nat, r: nat)
    requires r <= |rows| && (r < |rows| ==> Serves(rows[r], bytes, align))
    requires forall k :: 0 <= k < r ==> !Serves(rows[k], bytes, align)
    ensures FirstServing(rows, bytes, align, 0) == r
  {
  }

  /** The pool's own lookup, for small requests. */
  ghost predicate IsPoolLookup(rows: seq<nat>, lookup: seq<nat>) {
    |lookup| == LOOKUP_BYTES / GRAIN + 1 && forall q :: 0 <= q < |lookup| ==> lookup[q] == FirstFit(rows, q * GRAIN, 0)
  }

  method BuildPoolLookup(rows: seq<nat>) returns (t: array<nat>)
    requires Valid(rows)
    ensures IsPoolLookup(rows, t[..])
  {
    t := new nat[LOOKUP_BYTES / GRAIN + 1];
    FillSlots(rows, t, t.Length);
  }

  /** The pool's search: past the last row first, then the lookup or a binary search, then the alignment. */
  method ClassOf(rows: seq<nat>, lookup: seq<nat>, bytes: nat, align: nat) returns (i: nat)
    requires Valid(rows) && (align > GRAIN ==> PowerOfTwo(align))
    requires IsPoolLookup(rows, lookup)
    ensures i == Class(rows, bytes, align)
  {
    var need := bytes;
    if align > GRAIN {
      if align > HEADER_BYTES { return |rows|; }
      need := MaskDown((bytes + align - 1) % ByteOrder.U64, align);
      MaskRounds((bytes + align - 1) % ByteOrder.U64, align);
    }
    if need > Last(rows) {
      ServingIs(rows, need, align, |rows|);
      return |rows|;
    }
    if need <= LOOKUP_BYTES {
      SlotFit(rows, need);
      i := lookup[(need + GRAIN - 1) / GRAIN];
    } else {
      i := FirstFit(rows, need, 0);
    }
    if align > GRAIN {
      while i < |rows| && rows[i] % align != 0
        invariant i <= |rows| && (i < |rows| ==> rows[i] >= need)
        invariant forall k :: 0 <= k < i ==> !Serves(rows[k], need, align)
      {
        i := i + 1;
        assert i < |rows| ==> rows[i - 1] < rows[i];
      }
    }
    ServingIs(rows, need, align, i);
  }

  // --- What a connection is charged -------------------------------------------------------------

  function Charge(rows: seq<nat>, bytes: nat, align: nat): nat {
    RowOrAsAsked(rows, Padded(bytes, align), align)
  }

  function RowOrAsAsked(rows: seq<nat>, need: nat, align: nat): nat {
    var i := FirstServing(rows, need, align, 0);
    if i < |rows| then rows[i] else need
  }

  method Charged(rows: seq<nat>, bytes: nat, align: nat) returns (c: nat)
    ensures c == Charge(rows, bytes, align)
  {
    c := ChargedFor(rows, Padded(bytes, align), align, align > GRAIN);
  }

  method ChargedFor(rows: seq<nat>, need: nat, align: nat, over: bool) returns (c: nat)
    requires over == (align > GRAIN)
    ensures c == RowOrAsAsked(rows, need, align)
  {
    for i := 0 to |rows|
      invariant forall k :: 0 <= k < i ==> !Serves(rows[k], need, align)
    {
      if rows[i] >= need && (!over || rows[i] % align == 0) {
        ServingIs(rows, need, align, i);
        return rows[i];
      }
    }
    ServingIs(rows, need, align, |rows|);
    c := need;
  }

  /**
   * A block of a class is charged at its class. One that no class serves is charged as asked, except,
   * exactly, one aligned past 64 bytes that some row would have held: it is charged that row.
   */
  lemma ChargedAsServed(rows: seq<nat>, bytes: nat, align: nat)
    ensures Class(rows, bytes, align) < |rows| ==> Charge(rows, bytes, align) == rows[Class(rows, bytes, align)]
    ensures (Class(rows, bytes, align) == |rows| && FirstServing(rows, Padded(bytes, align), align, 0) < |rows|) <==>
            (align > HEADER_BYTES && exists i :: 0 <= i < |rows| && Serves(rows[i], Padded(bytes, align), align))
    ensures Class(rows, bytes, align) == |rows| && Charge(rows, bytes, align) != Padded(bytes, align) ==>
              align > HEADER_BYTES && Charge(rows, bytes, align) in rows
  {
    var i := FirstServing(rows, Padded(bytes, align), align, 0);
    assert i < |rows| ==> Serves(rows[i], Padded(bytes, align), align);
  }

  /** With 16-byte alignment a charge is the search's answer: all four ways agree. */
  lemma ChargeIsSearch(rows: seq<nat>, bytes: nat, align: nat)
    requires Ascending(rows) && align <= GRAIN
    ensures Charge(rows, bytes, align) == Search(rows, bytes)
  {
    ServingIs(rows, bytes, align, FirstFit(rows, bytes, 0));
  }
}
