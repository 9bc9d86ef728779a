/**
 The counting allocator of the forward-heap bench: the charge table in place, the counters around
 it, and the counted allocation and free entry points. Each method is tied to a function on
 `Probe`, the value of the whole instrument; `HeapRuns` reasons about runs of those functions.
 */
module ForwardHeap {
  import opened ChargeTable
  import opened MinMax

  const WINDOWS: nat := 0x1_0000_0000
  const MAX_ALIGN: nat := 16

  /** The instrument's state: the charge table and the counters of the current window. */
  datatype Probe = Probe(table: seq<Slot>, window: nat, armed: bool, refuse: bool,
                         allocs: nat, frees: nat, bytes: nat, maxBytes: nat, live: int)
  {
    ghost predicate Valid() {
      |table| == CHARGES && window < WINDOWS
    }
  }

  /** `size` rounded up to a multiple of `align`, a request of 0 bytes counting as 1. */
  function Rounded(size: nat, align: nat): nat
    requires align > 0
  {
    ((if size == 0 then 1 else size) + align - 1) / align * align
  }

  /** What one allocation of `size` bytes at `align` asks of the C allocator. */
  function Requested(size: nat, align: nat): nat {
    if align <= MAX_ALIGN then (if size == 0 then 1 else size) else Rounded(size, align)
  }

  /** The charge of a block that the C allocator granted with `usable` bytes. */
  function Charge(size: nat, align: nat, usable: nat): nat {
    ChargeBytes(Requested(size, align), usable, align <= MAX_ALIGN)
  }

  /** After an allocation that the C allocator answers with `p` (null when it fails). */
  function AfterAlloc(s: Probe, size: nat, align: nat, p: Ptr, usable: nat): (s': Probe)
    requires |s.table| == CHARGES
    ensures |s'.table| == CHARGES && s'.window == s.window && s'.armed == s.armed
  {
    if s.refuse || !s.armed then s
    else
      var c := s.(allocs := s.allocs + 1, bytes := s.bytes + size, maxBytes := Max(s.maxBytes, size));
      if p == NULL then c
      else
        var b := Charge(size, align, usable);
        c.(table := Charged(s.table, p, s.window, b), live := s.live + b)
  }

  function AfterFree(s: Probe, p: Ptr): (s': Probe)
    requires |s.table| == CHARGES
    ensures |s'.table| == CHARGES && s'.window == s.window && s'.armed == s.armed
  {
    if p == NULL || !s.armed then s
    else
      s.(frees := s.frees + 1, table := Discharged(s.table, p, s.window),
         live := s.live - DischargeBytes(s.table, p, s.window))
  }

  /** A reset: the counters go to zero and the 32-bit window number moves on. */
  function AfterReset(s: Probe): Probe {
    s.(window := (s.window + 1) % WINDOWS, allocs := 0, frees := 0, bytes := 0, maxBytes := 0, live := 0)
  }

  class Allocator {
    const charges: array<Slot>
    var window: nat
    var armed: bool
    var refuse: bool
    var allocs: nat
    var frees: nat
    var bytes: nat
    var maxBytes: nat
    var live: int

    ghost predicate Valid()
      reads this
    {
      charges.Length == CHARGES && window < WINDOWS
    }

    ghost function View(): Probe
      reads this, charges
    {
      Probe(charges[..], window, armed, refuse, allocs, frees, bytes, maxBytes, live)
    }

    constructor ()
      ensures Valid() && fresh(charges)
      ensures View() == Probe(seq(CHARGES, _ => Slot(NULL, 0, 0)), 0, false, false, 0, 0, 0, 0, 0)
    {
      charges := new Slot[CHARGES](_ => Slot(NULL, 0, 0));
      window, armed, refuse, allocs, frees, bytes, maxBytes, live := 0, false, false, 0, 0, 0, 0, 0;
    }

    /** Record what block `p` is charged, probing from its hash slot; give back the charge. */
    method RecordCharge(p: Ptr, size: nat, usable: nat, exactFit: bool) returns (b: nat)
      requires Valid() && p != NULL
      modifies charges
      ensures b == ChargeBytes(size, usable, exactFit)
      ensures charges[..] == Charged(old(charges[..]), p, window, b)
    {
      b := ChargeBytes(size, usable, exactFit);
      var i, n := ChargeSlot(p), 0;
      ghost var t := charges[..];
      HomeNext(p, 0);
      while n < PROBE_CAP && charges[i].p != NULL && charges[i].window == window && charges[i].p != p
        invariant n <= PROBE_CAP && i == Home(p, n) && charges[..] == t
        invariant InsertProbe(t, p, window, 0) == InsertProbe(t, p, window, n)
        decreases PROBE_CAP - n
      {
        assert charges[i] == t[i] && InsertPasses(t[i], p, window);
        HomeNext(p, n);
        i := (i + 1) % CHARGES;
        n := n + 1;
      }
      assert charges[i] == t[i];
      assert n == InsertProbe(t, p, window, 0);
      if n < PROBE_CAP {
        charges[i] := Slot(p, window, b);
        assert charges[..] == t[i := Slot(p, window, b)];
      }
    }

    /** Look `p` up in this window, kill its entry, and give back the charge (0 when there is none). */
    method Discharge(p: Ptr) returns (out: nat)
      requires Valid() && p != NULL
      modifies charges
      ensures out == DischargeBytes(old(charges[..]), p, window)
      ensures charges[..] == Discharged(old(charges[..]), p, window)
    {
      out := 0;
      var i, n := ChargeSlot(p), 0;
      ghost var t := charges[..];
      HomeNext(p, 0);
      while n < PROBE_CAP && charges[i].p != NULL
        invariant n <= PROBE_CAP && i == Home(p, n) && charges[..] == t && out == 0
        invariant LookupProbe(t, p, window, 0) == LookupProbe(t, p, window, n)
        decreases PROBE_CAP - n
      {
        assert charges[i] == t[i];
        if charges[i].p == p && charges[i].window == window {
          assert n == LookupProbe(t, p, window, 0);
          out := charges[i].bytes;
          charges[i] := charges[i].(window := 0);
          assert charges[..] == t[i := t[i].(window := 0)];
          return;
        }
        assert LookupPasses(t[i], p, window);
        HomeNext(p, n);
        i := (i + 1) % CHARGES;
        n := n + 1;
      }
      assert charges[i] == t[i] && n == LookupProbe(t, p, window, 0);
    }

    /**
     A counted allocation at any alignment. `granted` and `usable` are what the C allocator
     answers; a refusing instrument never asks it.
     */
    method CountedAlloc(size: nat, align: nat, granted: Ptr, usable: nat) returns (p: Ptr)
      requires Valid()
      modifies this, charges
      ensures Valid()
      ensures p == if old(refuse) then NULL else granted
      ensures View() == AfterAlloc(old(View()), size, align, granted, usable)
    {
      if refuse { return NULL; }
      if armed {
        allocs := allocs + 1;
        bytes := bytes + size;
        if size > maxBytes { maxBytes := size; }
      }
      p := granted;
      if armed && p != NULL {
        var b: nat;
        if align <= MAX_ALIGN {
          b := RecordCharge(p, if size != 0 then size else 1, usable, true);
        } else {
          b := RecordCharge(p, Rounded(size, align), usable, false);
        }
        live := live + b;
      }
    }

    method CountedFree(p: Ptr)
      requires Valid()
      modifies this, charges
      ensures Valid()
      ensures View() == AfterFree(old(View()), p)
    {
      if p == NULL { return; }
      if armed {
        frees := frees + 1;
        var out := Discharge(p);
        live := live - out;
      }
    }

    /** Open a measurement window: reset, then arm. */
    method OpenWindow()
      requires Valid()
      modifies this
      ensures Valid()
      ensures View() == AfterReset(old(View())).(armed := true)
    {
      window := (window + 1) % WINDOWS;
      allocs, frees, bytes, maxBytes, live := 0, 0, 0, 0, 0;
      armed := true;
    }

    method CloseWindow()
      requires Valid()
      modifies this
      ensures Valid() && View() == old(View()).(armed := false)
    {
      armed := false;
    }
  }
}
