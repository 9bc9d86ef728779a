/**
 * The generated size-class ladder and its arithmetic: the smallest row that holds a request,
 * computed from the request's highest bit without reading the table.
 */
module SizeLadder {
  import ByteOrder
  import opened MinMax
  import opened NumberSet
  import opened Powers
  import opened SizeClasses

  lemma {:induction false} Pow2IsPower(n: nat)
    ensures PowerOfTwo(Pow2(n))
  {
    if n > 0 { Pow2IsPower(n - 1); }
  }

  /**
   * A ladder: `2^per` rows of `2^step` bytes, then `2^per` evenly spaced rows in each of `doublings`
   * doublings, then, when `header` is not 0, one row of `header` bytes past the top.
   */
  datatype Ladder = Ladder(step: nat, per: nat, doublings: nat, header: nat)

  /** The spacing of the rows in doubling `d`. */
  function Spacing(l: Ladder, d: nat): nat {
    Pow2(l.step + d)
  }

  /** Where doubling `d` starts. */
  function Floor(l: Ladder, d: nat): nat {
    Pow2(l.step + l.per + d)
  }

  function Top(l: Ladder): nat {
    Floor(l, l.doublings)
  }

  /** `n` evenly spaced rows above `lo`. */
  function Group(lo: nat, spacing: nat, n: nat): (rows: seq<nat>)
    ensures |rows| == n
  {
    if n == 0 then [] else Group(lo, spacing, n - 1) + [lo + n * spacing]
  }

  function Small(l: Ladder): seq<nat> {
    Group(0, Spacing(l, 0), Pow2(l.per))
  }

  function Doubling(l: Ladder, d: nat): seq<nat> {
    Group(Floor(l, d), Spacing(l, d), Pow2(l.per))
  }

  /** The rows up to the end of the first `d` doublings. */
  function Rungs(l: Ladder, d: nat): seq<nat> {
    if d == 0 then Small(l) else Rungs(l, d - 1) + Doubling(l, d - 1)
  }

  function Table(l: Ladder): seq<nat> {
    Rungs(l, l.doublings) + if l.header != 0 then [Top(l) + l.header] else []
  }

  lemma FloorIs(l: Ladder, d: nat)
    ensures Floor(l, d) == Pow2(l.per) * Spacing(l, d) && Floor(l, d + 1) == 2 * Floor(l, d)
  {
    Pow2Sum(l.per, l.step + d);
    assert l.per + (l.step + d) == l.step + l.per + d;
  }

  // --- The generator ----------------------------------------------------------------------------

  /** One group of evenly spaced rows. */
  method FillGroup(t: seq<nat>, lo: nat, spacing: nat, n: nat) returns (t': seq<nat>)
    ensures t' == t + Group(lo, spacing, n)
  {
    t' := t;
    for k := 0 to n
      invariant t' == t + Group(lo, spacing, k)
    {
      t' := t' + [lo + (k + 1) * spacing];
    }
  }

  /** The doublings above the first group. */
  method FillDoublings(l: Ladder, rows: seq<nat>, base: nat, per: nat, top: nat) returns (t: seq<nat>)
    requires rows == Rungs(l, 0) && base == Floor(l, 0) && per == Pow2(l.per) && top == Top(l)
    ensures t == Rungs(l, l.doublings)
  {
    t := rows;
    var lo := base;
    ghost var d := 0;
    while lo < top
      invariant d <= l.doublings && lo == Floor(l, d) && t == Rungs(l, d)
      decreases l.doublings - d
    {
      var spacing := Divided(lo, per);
      NextRungs(l, d, lo, per, spacing);
      t := FillGroup(t, lo, spacing, per);
      lo, d := lo * 2, d + 1;
    }
    Pow2Mono(l.step + l.per + d, l.step + l.per + l.doublings);
  }

  method BuildTable(l: Ladder) returns (t: seq<nat>)
    ensures t == Table(l)
  {
    var per, step, top := Pow2(l.per), Pow2(l.step), Top(l);
    var base := Product(step, per);
    FirstRungs(l, per, step, base);
    t := FillGroup([], 0, step, per);
    t := FillDoublings(l, t, base, per, top);
    WithHeader(l, t, top);
    if l.header != 0 { t := t + [top + l.header]; }
  }

  /** The first group, and where the doublings start. */
  lemma FirstRungs(l: Ladder, per: nat, step: nat, base: nat)
    requires per == Pow2(l.per) && step == Pow2(l.step) && base == Product(step, per)
    ensures [] + Group(0, step, per) == Rungs(l, 0) && base == Floor(l, 0)
  {
    FloorIs(l, 0);
    assert [] + Group(0, step, per) == Group(0, step, per);
  }

  lemma WithHeader(l: Ladder, t: seq<nat>, top: nat)
    requires t == Rungs(l, l.doublings) && top == Top(l)
    ensures (if l.header != 0 then t + [top + l.header] else t) == Table(l)
  {
    assert t + [] == t;
  }

  function Product(a: nat, b: nat): nat {
    a * b
  }

  function Divided(a: nat, b: nat): nat
    requires b > 0
  {
    a / b
  }

  /** What one turn of the outer loop appends. */
  lemma NextRungs(l: Ladder, d: nat, lo: nat, per: nat, spacing: nat)
    requires lo == Floor(l, d) && per == Pow2(l.per) && spacing == Divided(lo, per)
    ensures Rungs(l, d) + Group(lo, spacing, per) == Rungs(l, d + 1) && lo * 2 == Floor(l, d + 1)
  {
    FloorIs(l, d);
    RowsApart(lo, per, Spacing(l, d));
  }

  lemma RowsApart(lo: nat, per: nat, s: nat)
    requires per > 0 && lo == per * s
    ensures lo / per == s
  {
    ByteOrder.ModUnique(lo, per, s, 0);
  }

  // --- The rows in order ------------------------------------------------------------------------

  /** A row of a group, by its place. */
  lemma {:induction false} GroupAt(lo: nat, s: nat, n: nat, k: nat)
    requires k < n
    ensures Group(lo, s, n)[k] == lo + (k + 1) * s
  {
    if k < n - 1 { GroupAt(lo, s, n - 1, k); }
  }

  lemma {:induction false} GroupMember(lo: nat, s: nat, n: nat, x: nat) returns (k: nat)
    requires x in Group(lo, s, n)
    ensures 1 <= k <= n && x == lo + k * s
  {
    if x == lo + n * s { k := n; } else { k := GroupMember(lo, s, n - 1, x); }
  }

  lemma {:induction false} GroupAscending(lo: nat, s: nat, n: nat)
    requires s > 0
    ensures Ascending(Group(lo, s, n)) && forall x :: x in Group(lo, s, n) ==> lo < x <= lo + n * s
  {
    if n > 0 {
      GroupAscending(lo, s, n - 1);
      assert lo + n * s == lo + (n - 1) * s + s;
      AscendingAppend(Group(lo, s, n - 1), [lo + n * s], lo + (n - 1) * s);
    }
  }

  lemma AscendingAppend(a: seq<nat>, b: seq<nat>, m: nat)
    requires Ascending(a) && Ascending(b)
    requires (forall x :: x in a ==> x <= m) && (forall y :: y in b ==> m < y)
    ensures Ascending(a + b)
  {
    forall i, j | 0 <= i < j < |a + b| ensures (a + b)[i] < (a + b)[j] {
      if i < |a| <= j { assert a[i] in a && b[j - |a|] in b; }
    }
  }

  /** The rows of a doubling lie in it, the last of them at its end. */
  lemma DoublingIn(l: Ladder, d: nat)
    ensures Ascending(Doubling(l, d)) && forall x :: x in Doubling(l, d) ==> Floor(l, d) < x <= Floor(l, d + 1)
  {
    GroupAscending(Floor(l, d), Spacing(l, d), Pow2(l.per));
    FloorIs(l, d);
  }

  lemma {:induction false} RungsIn(l: Ladder, d: nat)
    ensures Ascending(Rungs(l, d)) && forall x :: x in Rungs(l, d) ==> 0 < x <= Floor(l, d)
  {
    if d == 0 {
      GroupAscending(0, Spacing(l, 0), Pow2(l.per));
      FloorIs(l, 0);
    } else {
      RungsIn(l, d - 1);
      DoublingIn(l, d - 1);
      AscendingAppend(Rungs(l, d - 1), Doubling(l, d - 1), Floor(l, d - 1));
    }
  }

  /** The generated table is strictly ascending, as the pools demand of it. */
  lemma TableAscending(l: Ladder)
    ensures Ascending(Table(l)) && forall x :: x in Table(l) ==> 0 < x <= Top(l) + l.header
  {
    RungsIn(l, l.doublings);
    AscendingAppend(Rungs(l, l.doublings), if l.header != 0 then [Top(l) + l.header] else [], Top(l));
  }

  // --- The arithmetic ---------------------------------------------------------------------------

  /** The highest power of two in `x`. */
  function HighBit(x: nat): nat {
    if x < 2 then 1 else 2 * HighBit(x / 2)
  }

  lemma {:induction false} HighBitIs(x: nat, n: nat)
    requires Pow2(n) <= x < Pow2(n + 1)
    ensures HighBit(x) == Pow2(n)
  {
    if n > 0 { HighBitIs(x / 2, n - 1); }
  }

  /** `x` with its lowest bit set. */
  function WithOne(x: nat): nat {
    x + 1 - x % 2
  }

  /** `bytes` rounded up to a multiple of the power of two `a`, every sum taken in 64 bits. */
  function RoundUp(bytes: nat, a: nat): nat {
    MaskDown((bytes + a + ByteOrder.U64 - 1) % ByteOrder.U64, a)
  }

  /** The spacing of the rows around `bytes`: that of the doubling its highest bit says. */
  function SpacingAt(l: Ladder, bytes: nat): nat {
    var x := if bytes > Floor(l, 0) then bytes - 1 else Floor(l, 0);
    HighBit(WithOne(x)) / Pow2(l.per)
  }

  /** The smallest row that holds `bytes`, or `bytes` past the last row, by arithmetic alone. */
  function Ceiling(l: Ladder, bytes: nat): nat {
    var step, top := Pow2(l.step), Top(l);
    if bytes <= Floor(l, 0) then RoundUp(Max(bytes, step), step)
    else if bytes <= top then RoundUp(bytes, SpacingAt(l, bytes))
    else if l.header != 0 && bytes <= top + l.header then top + l.header
    else bytes
  }

  /** Rounding a sum up to the top does not leave 64 bits. */
  ghost predicate Fits(l: Ladder) {
    2 * Top(l) <= ByteOrder.U64
  }

  lemma NoWrap(bytes: nat, a: nat)
    requires 0 < a && bytes + a <= ByteOrder.U64
    ensures (bytes + a + ByteOrder.U64 - 1) % ByteOrder.U64 == bytes + a - 1
  {
  }

  lemma RoundDownIs(x: nat, a: nat) returns (q: nat)
    requires a > 0
    ensures RoundDown(x, a) == q * a && q * a <= x < q * a + a
  {
    q := x / a;
  }

  /** Rounding up gives the least multiple that is no smaller. */
  lemma RoundUpIs(bytes: nat, a: nat) returns (q: nat)
    requires PowerOfTwo(a) && bytes + a <= ByteOrder.U64
    ensures RoundUp(bytes, a) == q * a && bytes <= q * a < bytes + a
  {
    NoWrap(bytes, a);
    MaskRounds(bytes + a - 1, a);
    q := RoundDownIs(bytes + a - 1, a);
  }

  lemma {:induction false} MulStep(k: nat, q: nat, s: nat)
    ensures k < q ==> k * s + s <= q * s
  {
    if k < q { MulStep(k, q - 1, s); }
  }

  lemma LeastMultiple(q: nat, k: nat, s: nat, bytes: nat)
    requires q * s < bytes + s && bytes <= k * s
    ensures q * s <= k * s
  {
    MulStep(k, q, s);
    MulStep(q, k, s);
  }

  lemma WithOneBelow(x: nat, p: nat)
    requires x < 2 * p
    ensures x <= WithOne(x) < 2 * p
  {
  }

  lemma HighBitOf(n: nat, bytes: nat)
    requires Pow2(n) < bytes <= Pow2(n + 1)
    ensures HighBit(WithOne(bytes - 1)) == Pow2(n)
  {
    WithOneBelow(bytes - 1, Pow2(n));
    HighBitIs(WithOne(bytes - 1), n);
  }

  lemma SpacingIs(l: Ladder, d: nat, bytes: nat)
    requires Floor(l, d) < bytes <= Floor(l, d + 1)
    ensures SpacingAt(l, bytes) == Spacing(l, d)
  {
    Pow2Mono(l.step + l.per, l.step + l.per + d);
    HighBitOf(l.step + l.per + d, bytes);
    FloorIs(l, d);
    RowsApart(Floor(l, d), Pow2(l.per), Spacing(l, d));
  }

  /** The doubling a request falls in. */
  lemma {:induction false} DoublingOf(l: Ladder, n: nat, bytes: nat) returns (d: nat)
    requires Floor(l, 0) < bytes <= Floor(l, n)
    ensures d < n && Floor(l, d) < bytes <= Floor(l, d + 1)
  {
    if bytes > Floor(l, n - 1) { d := n - 1; } else { d := DoublingOf(l, n - 1, bytes); }
  }

  lemma {:induction false} RungsGrow(l: Ladder, n: nat, d: nat, x: nat)
    requires x in Small(l) || (d < n && x in Doubling(l, d))
    ensures x in Rungs(l, n)
  {
    if n > 0 && (x in Small(l) || d < n - 1) { RungsGrow(l, n - 1, d, x); }
  }

  lemma {:induction false} PastSmall(l: Ladder, n: nat, x: nat)
    requires x in Rungs(l, n) && x !in Small(l)
    ensures x > Floor(l, 0)
  {
    if x in Rungs(l, n - 1) {
      PastSmall(l, n - 1, x);
    } else {
      DoublingIn(l, n - 1);
      Pow2Mono(l.step + l.per, l.step + l.per + (n - 1));
    }
  }

  lemma {:induction false} PastDoubling(l: Ladder, n: nat, d: nat, x: nat)
    requires d < n && x in Rungs(l, n) && x > Floor(l, d) && x !in Doubling(l, d)
    ensures x > Floor(l, d + 1)
  {
    RungsIn(l, d);
    if x in Rungs(l, n - 1) {
      PastDoubling(l, n - 1, d, x);
    } else {
      DoublingIn(l, n - 1);
      Pow2Mono(l.step + l.per + (d + 1), l.step + l.per + (n - 1));
    }
  }

  /** A table's rows are its rungs and the header row above them. */
  lemma TableRow(l: Ladder, x: nat)
    ensures x in Table(l) <==> x in Rungs(l, l.doublings) || (l.header != 0 && x == Top(l) + l.header)
  {
  }

  lemma {:induction false} MulSum(p: nat, k: nat, s: nat)
    ensures p * s + k * s == (p + k) * s
  {
  }

  /** In a group above `p` spacings, the request rounded up to a spacing is a row, and the least that fits. */
  lemma GroupFit(p: nat, s: nat, n: nat, need: nat, q: nat)
    requires s > 0 && p * s < need <= (p + n) * s && need <= q * s < need + s
    ensures q * s in Group(p * s, s, n)
  {
    MulStep(q, p, s);
    MulStep(p + n, q, s);
    assert p < q <= p + n;
    GroupAt(p * s, s, n, q - p - 1);
    MulSum(p, q - p, s);
  }

  lemma GroupLeast(p: nat, s: nat, n: nat, need: nat, q: nat, r: nat)
    requires q * s < need + s && need <= r && r in Group(p * s, s, n)
    ensures q * s <= r
  {
    var k := GroupMember(p * s, s, n, r);
    MulSum(p, k, s);
    LeastMultiple(q, p + k, s, need);
  }

  lemma SmallAtLeast(s: nat, n: nat, r: nat)
    requires r in Group(0, s, n)
    ensures r >= s
  {
    var k := GroupMember(0, s, n, r);
    MulStep(0, k, s);
  }

  /** Up to the first group, the arithmetic rounds up to the first spacing. */
  lemma SmallCeiling(l: Ladder, bytes: nat) returns (q: nat)
    requires Fits(l) && bytes <= Floor(l, 0)
    ensures var s, need := Spacing(l, 0), Max(bytes, Spacing(l, 0));
            Ceiling(l, bytes) == q * s && need <= q * s < need + s && need <= Pow2(l.per) * s
  {
    Pow2IsPower(l.step);
    FloorIs(l, 0);
    Pow2Mono(l.step, l.step + l.per);
    Pow2Mono(l.step + l.per, l.step + l.per + l.doublings);
    q := RoundUpIs(Max(bytes, Pow2(l.step)), Pow2(l.step));
  }

  lemma SmallFit(l: Ladder, bytes: nat)
    requires Fits(l) && bytes <= Floor(l, 0)
    ensures Ceiling(l, bytes) in Small(l) && bytes <= Ceiling(l, bytes)
  {
    var q := SmallCeiling(l, bytes);
    GroupFit(0, Spacing(l, 0), Pow2(l.per), Max(bytes, Spacing(l, 0)), q);
  }

  lemma SmallLeast(l: Ladder, bytes: nat, r: nat)
    requires Fits(l) && bytes <= Floor(l, 0) && r in Small(l) && r >= bytes
    ensures Ceiling(l, bytes) <= r
  {
    var q := SmallCeiling(l, bytes);
    SmallAtLeast(Spacing(l, 0), Pow2(l.per), r);
    GroupLeast(0, Spacing(l, 0), Pow2(l.per), Max(bytes, Spacing(l, 0)), q, r);
  }

  /** In a doubling, the arithmetic rounds up to that doubling's spacing. */
  lemma DoublingCeiling(l: Ladder, d: nat, bytes: nat) returns (q: nat)
    requires Fits(l) && d < l.doublings && Floor(l, d) < bytes <= Floor(l, d + 1)
    ensures var s, per := Spacing(l, d), Pow2(l.per);
            Ceiling(l, bytes) == q * s && bytes <= q * s < bytes + s && per * s == Floor(l, d) && bytes <= (per + per) * s
  {
    SpacingIs(l, d, bytes);
    Pow2IsPower(l.step + d);
    FloorIs(l, d);
    var top := l.step + l.per + l.doublings;
    Pow2Mono(l.step + d, top);
    Pow2Mono(l.step + l.per, l.step + l.per + d);
    Pow2Mono(l.step + l.per + (d + 1), top);
    q := RoundUpIs(bytes, Spacing(l, d));
    MulSum(Pow2(l.per), Pow2(l.per), Spacing(l, d));
  }

  lemma DoublingFit(l: Ladder, d: nat, bytes: nat)
    requires Fits(l) && d < l.doublings && Floor(l, d) < bytes <= Floor(l, d + 1)
    ensures Ceiling(l, bytes) in Doubling(l, d) && bytes <= Ceiling(l, bytes)
  {
    var q := DoublingCeiling(l, d, bytes);
    GroupFit(Pow2(l.per), Spacing(l, d), Pow2(l.per), bytes, q);
  }

  lemma DoublingLeast(l: Ladder, d: nat, bytes: nat, r: nat)
    requires Fits(l) && d < l.doublings && Floor(l, d) < bytes <= Floor(l, d + 1)
    requires r in Doubling(l, d) && r >= bytes
    ensures Ceiling(l, bytes) <= r
  {
    var q := DoublingCeiling(l, d, bytes);
    GroupLeast(Pow2(l.per), Spacing(l, d), Pow2(l.per), bytes, q, r);
  }

  /** Up to the top, the arithmetic gives the least row of the table that holds the request. */
  lemma CeilingLeast(l: Ladder, bytes: nat)
    requires Fits(l) && bytes <= Top(l)
    ensures IsLeast(Table(l), bytes, Ceiling(l, bytes))
  {
    var c := Ceiling(l, bytes);
    if bytes <= Floor(l, 0) {
      SmallFit(l, bytes);
      RungsGrow(l, l.doublings, 0, c);
    } else {
      var d := DoublingOf(l, l.doublings, bytes);
      DoublingFit(l, d, bytes);
      RungsGrow(l, l.doublings, d, c);
    }
    TableRow(l, c);
    forall r | r in Table(l) && r >= bytes ensures c <= r {
      TableRow(l, r);
      RungsIn(l, l.doublings);
      if r in Rungs(l, l.doublings) { RungLeast(l, bytes, r); }
    }
  }

  lemma RungLeast(l: Ladder, bytes: nat, r: nat)
    requires Fits(l) && bytes <= Top(l) && r in Rungs(l, l.doublings) && r >= bytes
    ensures Ceiling(l, bytes) <= r
  {
    if bytes <= Floor(l, 0) {
      SmallFit(l, bytes);
      RungsIn(l, 0);
      if r in Small(l) { SmallLeast(l, bytes, r); } else { PastSmall(l, l.doublings, r); }
    } else {
      var d := DoublingOf(l, l.doublings, bytes);
      DoublingFit(l, d, bytes);
      DoublingIn(l, d);
      if r in Doubling(l, d) { DoublingLeast(l, d, bytes, r); } else { PastDoubling(l, l.doublings, d, r); }
    }
  }

  lemma PastTop(l: Ladder, bytes: nat)
    requires bytes > Top(l)
    ensures Ceiling(l, bytes) == Search(Table(l), bytes)
  {
    var rows, last := Table(l), Top(l) + l.header;
    Pow2Mono(l.step + l.per, l.step + l.per + l.doublings);
    TableAscending(l);
    RungsIn(l, l.doublings);
    var i := FirstFit(rows, bytes, 0);
    assert i == |rows| || rows[i] in rows;
    if l.header != 0 && bytes <= last {
      assert IsLeast(rows, bytes, last);
      LeastIsUnique(rows, bytes, last);
    }
  }

  /** For every request, the arithmetic, without reading the table, answers what a search of it does. */
  lemma CeilingIsSearch(l: Ladder, bytes: nat)
    requires Fits(l)
    ensures Ceiling(l, bytes) == Search(Table(l), bytes)
  {
    if bytes <= Top(l) {
      TableAscending(l);
      CeilingLeast(l, bytes);
      LeastIsUnique(Table(l), bytes, Ceiling(l, bytes));
    } else {
      PastTop(l, bytes);
    }
  }

  // --- What a block wastes ----------------------------------------------------------------------

  /** The block wastes no more than one part in `2^per` of its size. */
  ghost predicate WithinShare(l: Ladder, bytes: nat) {
    (Ceiling(l, bytes) - bytes) * Pow2(l.per) <= Ceiling(l, bytes)
  }

  /** How many steps of the first group a request takes; even an empty one takes one. */
  function Steps(l: Ladder, bytes: nat): nat {
    (Max(bytes, Pow2(l.step)) + Pow2(l.step) - 1) / Pow2(l.step)
  }

  /** The request fills all but one part in `2^per` of `size`. */
  ghost predicate Fills(l: Ladder, bytes: nat, size: nat) {
    Pow2(l.per) * bytes >= (Pow2(l.per) - 1) * size
  }

  lemma ShareForm(c: nat, bytes: nat, per: nat)
    requires bytes <= c && per > 0
    ensures (c - bytes) * per <= c <==> per * bytes >= (per - 1) * c
  {
    assert (c - bytes) * per == c * per - bytes * per;
    assert (per - 1) * c == per * c - c;
  }

  /** In the first group the row is the steps that the request takes. */
  lemma SmallSteps(l: Ladder, bytes: nat)
    requires Fits(l) && bytes <= Floor(l, 0)
    ensures Ceiling(l, bytes) == Steps(l, bytes) * Pow2(l.step) && bytes <= Ceiling(l, bytes)
  {
    var q := SmallCeiling(l, bytes);
    var s, need := Pow2(l.step), Max(bytes, Pow2(l.step));
    ByteOrder.ModUnique(need + s - 1, s, q, need + s - 1 - q * s);
  }

  /** In a doubling the waste is less than a spacing, so less than the share. */
  lemma DoublingWaste(l: Ladder, bytes: nat)
    requires Fits(l) && Floor(l, 0) < bytes <= Top(l)
    ensures WithinShare(l, bytes)
  {
    var d := DoublingOf(l, l.doublings, bytes);
    var q := DoublingCeiling(l, d, bytes);
    SmallWaste(Ceiling(l, bytes) - bytes, Spacing(l, d), Pow2(l.per), bytes);
  }

  lemma SmallWaste(w: int, s: nat, per: nat, bytes: nat)
    requires 0 <= w < s && per * s < bytes
    ensures w * per < bytes
  {
    MulStep(w, s, per);
  }

  lemma FirstGroupWaste(l: Ladder, bytes: nat)
    requires Fits(l) && bytes <= Floor(l, 0)
    ensures WithinShare(l, bytes) <==> Fills(l, bytes, Steps(l, bytes) * Pow2(l.step))
  {
    SmallSteps(l, bytes);
    ShareForm(Ceiling(l, bytes), bytes, Pow2(l.per));
  }

  lemma HeaderRowWaste(l: Ladder, bytes: nat)
    requires Top(l) < bytes <= Top(l) + l.header
    ensures WithinShare(l, bytes) <==> Fills(l, bytes, Top(l) + l.header)
  {
    Pow2Mono(l.step + l.per, l.step + l.per + l.doublings);
    ShareForm(Top(l) + l.header, bytes, Pow2(l.per));
  }

  /** Past the last row a block is exact. */
  lemma PastRowsWaste(l: Ladder, bytes: nat)
    requires Top(l) + l.header < bytes
    ensures WithinShare(l, bytes)
  {
    Pow2Mono(l.step + l.per, l.step + l.per + l.doublings);
    assert Ceiling(l, bytes) == bytes;
    ExactWaste(bytes, Pow2(l.per), Ceiling(l, bytes) - bytes);
  }

  lemma ExactWaste(c: nat, per: nat, w: int)
    requires w == 0
    ensures w * per <= c
  {
  }

  /** The size of the row that a request of the first group, or of the header row, has to fill. */
  function RowToFill(l: Ladder, bytes: nat): nat {
    if bytes <= Floor(l, 0) then Product(Steps(l, bytes), Pow2(l.step)) else Top(l) + l.header
  }

  /**
   * Exactly when a block wastes no more than its share, for every request: in the doublings and past
   * the last row always, in the first group and in the header row when the request fills the row.
   */
  lemma WasteIff(l: Ladder, bytes: nat)
    requires Fits(l)
    ensures WithinShare(l, bytes) <==>
            (Floor(l, 0) < bytes <= Top(l) || bytes > Top(l) + l.header || Fills(l, bytes, RowToFill(l, bytes)))
  {
    if bytes <= Floor(l, 0) {
      FirstGroupWaste(l, bytes);
      Pow2Mono(l.step + l.per, l.step + l.per + l.doublings);
    } else if bytes <= Top(l) {
      DoublingWaste(l, bytes);
    } else if bytes <= Top(l) + l.header {
      HeaderRowWaste(l, bytes);
    } else {
      PastRowsWaste(l, bytes);
    }
  }

  /** The default ladder: 16 bytes to 64 KiB, eight rows a doubling, one more for a segment's header. */
  const DEFAULT: Ladder := Ladder(4, 3, 9, 48)

  lemma DefaultTable()
    ensures Fits(DEFAULT) && Floor(DEFAULT, 0) == 128 && Top(DEFAULT) == 65536 && |Table(DEFAULT)| == 81
  {
    Pow2At();
    RungCount(DEFAULT, 9);
  }

  lemma Pow2At()
    ensures Pow2(3) == 8 && Pow2(4) == 16 && Pow2(7) == 128 && Pow2(8) == 256
    ensures Pow2(11) == 2048 && Pow2(12) == 4096 && Pow2(16) == 65536
  {
    assert Pow2(4) == 16;
    assert Pow2(8) == 256;
    Pow2Sum(8, 3);
    Pow2Sum(8, 4);
    Pow2Sum(8, 8);
  }

  /** On the default ladder: above 128 bytes always, up to there exactly when 14 of every 16 are used. */
  lemma DefaultWasteIff(bytes: nat)
    ensures WithinShare(DEFAULT, bytes) <==> bytes > 128 || bytes >= 14 * ((Max(bytes, 16) + 15) / 16)
  {
    DefaultTable();
    Pow2At();
    WasteIff(DEFAULT, bytes);
    assert Steps(DEFAULT, bytes) == (Max(bytes, 16) + 15) / 16;
  }

  /**
   * 2176 bytes aligned to 128: no class serves the block, which the pool draws at its own size, and it
   * is charged the row of 2304.
   */
  lemma OverAlignedOnDefault()
    ensures var rows := Table(DEFAULT);
            Class(rows, 2176, 128) == |rows| && Padded(2176, 128) == 2176 && Charge(rows, 2176, 128) == 2304
  {
    var rows := Table(DEFAULT);
    DefaultTable();
    Pow2At();
    CeilingIsSearch(DEFAULT, 2176);
    var q := DoublingCeiling(DEFAULT, 4, 2176);
    assert q == 9;
    var i := FirstFit(rows, 2176, 0);
    assert rows[i] == 2304;
    ServingIs(rows, 2176, 128, i);
  }

  lemma {:induction false} RungCount(l: Ladder, d: nat)
    ensures |Rungs(l, d)| == (d + 1) * Pow2(l.per)
  {
    if d > 0 {
      RungCount(l, d - 1);
      MulSum(d, 1, Pow2(l.per));
    }
  }

  lemma Grains(lo: nat, k: nat, s: nat, t: nat, x: nat)
    requires lo % GRAIN == 0 && s == GRAIN * t && x == lo + k * s
    ensures x % GRAIN == 0
  {
    var q := k * t;
    assert k * s == q * GRAIN;
    ByteOrder.ModUnique(x, GRAIN, lo / GRAIN + q, 0);
  }

  lemma {:induction false} Pow2Grain(n: nat)
    ensures Pow2(n + 4) == GRAIN * Pow2(n)
  {
    if n > 0 { Pow2Grain(n - 1); } else { assert Pow2(4) == 16; }
  }

  lemma GroupGrain(lo: nat, s: nat, t: nat, n: nat, x: nat)
    requires lo % GRAIN == 0 && s == GRAIN * t && x in Group(lo, s, n)
    ensures x % GRAIN == 0
  {
    var k := GroupMember(lo, s, n, x);
    Grains(lo, k, s, t, x);
  }

  lemma FloorGrain(l: Ladder, d: nat)
    requires l.step >= 4
    ensures Floor(l, d) % GRAIN == 0
  {
    var n := l.step - 4 + l.per + d;
    assert n + 4 == l.step + l.per + d;
    Pow2Grain(n);
    Grains(0, 1, Pow2(n + 4), Pow2(n), Pow2(n + 4));
  }

  lemma SpacingGrain(l: Ladder, d: nat)
    requires l.step >= 4
    ensures Spacing(l, d) == GRAIN * Pow2(l.step - 4 + d)
  {
    assert l.step - 4 + d + 4 == l.step + d;
    Pow2Grain(l.step - 4 + d);
  }

  lemma GrainSum(a: nat, b: nat, x: nat)
    requires a % GRAIN == 0 && b % GRAIN == 0 && x == a + b
    ensures x % GRAIN == 0
  {
  }

  lemma {:induction false} RungGrain(l: Ladder, d: nat, x: nat)
    requires l.step >= 4 && x in Rungs(l, d)
    ensures x % GRAIN == 0
  {
    if x in Small(l) {
      SpacingGrain(l, 0);
      GroupGrain(0, Spacing(l, 0), Pow2(l.step - 4), Pow2(l.per), x);
    } else if x in Rungs(l, d - 1) {
      RungGrain(l, d - 1, x);
    } else {
      FloorGrain(l, d - 1);
      SpacingGrain(l, d - 1);
      GroupGrain(Floor(l, d - 1), Spacing(l, d - 1), Pow2(l.step - 4 + (d - 1)), Pow2(l.per), x);
    }
  }

  lemma RowGrain(l: Ladder, x: nat)
    requires l.step >= 4 && l.header % GRAIN == 0 && x in Table(l)
    ensures x % GRAIN == 0
  {
    TableRow(l, x);
    if x in Rungs(l, l.doublings) {
      RungGrain(l, l.doublings, x);
    } else {
      FloorGrain(l, l.doublings);
      GrainSum(Top(l), l.header, x);
    }
  }

  /** A ladder of 16-byte steps is a table that a pool can serve. */
  lemma LadderValid(l: Ladder)
    requires l.step >= 4 && l.header % GRAIN == 0 && 0 < |Table(l)| <= 255
    ensures Valid(Table(l))
  {
    TableAscending(l);
    EachRow(l, Table(l));
  }

  lemma EachRow(l: Ladder, rows: seq<nat>)
    requires l.step >= 4 && l.header % GRAIN == 0 && rows == Table(l)
    ensures forall i :: 0 <= i < |rows| ==> rows[i] > 0 && rows[i] % GRAIN == 0
  {
    TableAscending(l);
    forall i | 0 <= i < |rows| ensures rows[i] > 0 && rows[i] % GRAIN == 0 {
      assert rows[i] in rows;
      RowGrain(l, rows[i]);
    }
  }

  /** The three ways a build finds a class agree on every request, and a charge is their answer too. */
  lemma AllWaysAgree(slot: seq<nat>, bytes: nat, align: nat)
    requires IsLookup(Table(DEFAULT), slot) && align <= GRAIN
    ensures Ceiling(DEFAULT, bytes) == LookupCeiling(Table(DEFAULT), slot, bytes) == Charge(Table(DEFAULT), bytes, align)
  {
    DefaultTable();
    LadderValid(DEFAULT);
    CeilingIsSearch(DEFAULT, bytes);
    LookupIsSearch(Table(DEFAULT), slot, bytes);
    ChargeIsSearch(Table(DEFAULT), bytes, align);
  }
}
