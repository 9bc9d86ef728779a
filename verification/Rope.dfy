/**
 * Bytes cut into links: the two ropes the benches build over a frame.
 */
module Rope {
  import opened ByteOrder

  /** One link of a rope, or one span of a table. */
  type Link = seq<byte>

  // --- Even pieces ------------------------------------------------------------------------------

  /** `k` pieces, none empty, no two differing by more than one byte, that make up `bytes`. */
  ghost predicate EvenSplit(rope: seq<Link>, bytes: seq<byte>, k: nat) {
    && |rope| == k && Concat(rope) == bytes
    && (forall i :: 0 <= i < k ==> rope[i] != [])
    && (forall i, j :: 0 <= i < k && 0 <= j < k ==> |rope[i]| <= |rope[j]| + 1)
  }

  function Clamp(size: nat, links: nat): nat {
    if links == 0 then (if size == 0 then 0 else 1) else if links > size then size else links
  }

  /** Where piece `i` ends, the product taken in 64 bits. */
  function End(size: nat, k: nat, i: nat): nat
    requires k > 0
  {
    size * (i + 1) % U64 / k
  }

  lemma MulLess(size: nat, j: nat, k: nat)
    requires j <= k
    ensures size * j <= size * k
  {
    assert size * k == size * j + size * (k - j);
  }

  lemma DivLess(y: nat, size: nat, k: nat)
    requires k > 0 && y < size * k
    ensures y / k < size
  {
    var q, r := y / k, y % k;
    assert y == q * k + r;
    if q >= size { MulLess(k, size, q); }
  }

  /** While the product fits, a piece is a share of the size, rounded down or up. */
  lemma PieceLength(a: nat, size: nat, k: nat)
    requires k > 0
    ensures size / k <= (a + size) / k - a / k <= size / k + 1
  {
    var p, m := a / k, a % k;
    var q, r := size / k, size % k;
    SumQuotient(a + size, k, p, m, q, r);
  }

  lemma SumQuotient(x: nat, k: nat, p: nat, m: nat, q: nat, r: nat)
    requires k > 0 && m < k && r < k && x == p * k + m + (q * k + r)
    ensures x / k == p + q || x / k == p + q + 1
  {
    assert (p + q) * k == p * k + q * k;
    if m + r < k {
      ModUnique(x, k, p + q, m + r);
    } else {
      assert (p + q + 1) * k == (p + q) * k + k;
      ModUnique(x, k, p + q + 1, m + r - k);
    }
  }

  lemma WrapsDown(x: nat)
    ensures x % U64 <= x && (x >= U64 ==> x % U64 < x) && (x < U64 ==> x % U64 == x)
  {
  }

  /** Every piece but the last ends before the end, and the last one too once the product wraps. */
  lemma EndBelow(size: nat, k: nat, i: nat)
    requires i < k <= size && (i + 1 < k || size * k >= U64)
    ensures End(size, k, i) < size
  {
    var x := size * (i + 1);
    WrapsDown(x);
    if i + 1 < k {
      MulLess(size, i + 2, k);
      assert size * (i + 2) == x + size;
    }
    DivLess(x % U64, size, k);
  }

  lemma EndWithin(size: nat, k: nat, i: nat)
    requires i < k <= size && size * k < U64
    ensures End(size, k, i) == size * (i + 1) / k <= size
  {
    var x := size * (i + 1);
    MulLess(size, i + 1, k);
    WrapsDown(x);
    if i + 1 < k { EndBelow(size, k, i); } else { ModUnique(x, k, size, 0); }
  }

  /** The lengths so far, while the product fits: each a share, and together the first `i` of `k` shares. */
  ghost predicate Shares(rope: seq<Link>, size: nat, k: nat, i: nat, at: nat)
    requires k > 0
  {
    && |rope| == i && at == size * i / k
    && forall j :: 0 <= j < i ==> size / k <= |rope[j]| <= size / k + 1
  }

  lemma ShareIsSome(size: nat, k: nat)
    requires 0 < k <= size
    ensures size / k >= 1
  {
    assert size == size / k * k + size % k;
  }

  lemma NextShare(rope: seq<Link>, size: nat, k: nat, i: nat, at: nat, end: nat)
    requires i < k <= size && size * k < U64 && Shares(rope, size, k, i, at) && end == End(size, k, i)
    ensures at < end == size * (i + 1) / k && size / k <= end - at <= size / k + 1
  {
    EndWithin(size, k, i);
    assert size * (i + 1) == size * i + size;
    PieceLength(size * i, size, k);
    ShareIsSome(size, k);
  }

  lemma SharesAreEven(rope: seq<Link>, bytes: seq<byte>, k: nat)
    requires 0 < k <= |bytes| && Shares(rope, |bytes|, k, k, |bytes|) && Concat(rope) == bytes
    ensures EvenSplit(rope, bytes, k)
  {
    ShareIsSome(|bytes|, k);
  }

  /** The loop's state: the pieces so far are the first `at` bytes, and a share each while the product fits. */
  ghost predicate CutTo(rope: seq<Link>, bytes: seq<byte>, k: nat, i: nat, at: nat)
    requires k > 0
  {
    && at <= |bytes| && Concat(rope) == bytes[..at]
    && (if |bytes| * k < U64 then Shares(rope, |bytes|, k, i, at) else at < |bytes|)
  }

  lemma CutPiece(rope: seq<Link>, bytes: seq<byte>, k: nat, i: nat, at: nat, end: nat)
    requires 0 <= i < k <= |bytes| && CutTo(rope, bytes, k, i, at) && end == End(|bytes|, k, i)
    ensures end <= |bytes|
    ensures if at < end then CutTo(rope + [bytes[at..end]], bytes, k, i + 1, end) else CutTo(rope, bytes, k, i + 1, at)
  {
    if |bytes| * k < U64 { EndWithin(|bytes|, k, i); } else { EndBelow(|bytes|, k, i); }
    if at < end {
      ConcatAppend(rope, bytes[at..end]);
      assert bytes[..end] == bytes[..at] + bytes[at..end];
    }
    if |bytes| * k < U64 { NextShare(rope, |bytes|, k, i, at, end); }
  }

  lemma CutWhole(rope: seq<Link>, bytes: seq<byte>, k: nat, at: nat)
    requires 0 < k <= |bytes| && CutTo(rope, bytes, k, k, at)
    ensures EvenSplit(rope, bytes, k) <==> |bytes| * k < U64
  {
    if |bytes| * k < U64 {
      ModUnique(|bytes| * k, k, |bytes|, 0);
      assert bytes[..at] == bytes;
      SharesAreEven(rope, bytes, k);
    }
  }

  /**
   * A rope of `links` even pieces. The pieces are as many as asked, at least one and at most a byte
   * each, and even, exactly when the size times the pieces fits 64 bits; past that bytes are lost.
   */
  method RopeOf(bytes: seq<byte>, links: nat) returns (rope: seq<Link>)
    ensures EvenSplit(rope, bytes, Clamp(|bytes|, links)) <==> |bytes| * Clamp(|bytes|, links) < U64
  {
    var k, at := Clamp(|bytes|, links), 0;
    rope := [];
    if k == 0 { return; }
    for i := 0 to k
      invariant 0 <= at && CutTo(rope, bytes, k, i, at)
    {
      var end := End(|bytes|, k, i);
      CutPiece(rope, bytes, k, i, at, end);
      if end > at {
        rope := rope + [bytes[at..end]];
        at := end;
      }
    }
    CutWhole(rope, bytes, k, at);
  }

  // --- Links of a fixed size --------------------------------------------------------------------

  /** Full links and then a last one that is not empty and not longer. */
  ghost predicate FixedSplit(rope: seq<Link>, bytes: seq<byte>, size: nat) {
    && Concat(rope) == bytes
    && (forall i :: 0 <= i < |rope| - 1 ==> |rope[i]| == size)
    && (rope != [] ==> 0 < |rope[|rope| - 1]| <= size)
  }

  /** Full links only, for the first `at` bytes. */
  ghost predicate FullLinks(rope: seq<Link>, bytes: seq<byte>, size: nat, at: nat) {
    at <= |bytes| && Concat(rope) == bytes[..at] && forall i :: 0 <= i < |rope| ==> |rope[i]| == size
  }

  lemma NextLink(rope: seq<Link>, bytes: seq<byte>, size: nat, at: nat, n: nat)
    requires FullLinks(rope, bytes, size, at) && 0 < n <= size && at + n <= |bytes|
    ensures var more := rope + [bytes[at..at + n]];
            (n == size ==> FullLinks(more, bytes, size, at + n)) && (at + n == |bytes| ==> FixedSplit(more, bytes, size))
  {
    ConcatAppend(rope, bytes[at..at + n]);
    assert bytes[..at + n] == bytes[..at] + bytes[at..at + n];
    assert bytes[..|bytes|] == bytes;
  }

  method RopeByLinkSize(bytes: seq<byte>, linkBytes: nat) returns (rope: seq<Link>)
    ensures FixedSplit(rope, bytes, if linkBytes == 0 then |bytes| else linkBytes)
  {
    var size, at := if linkBytes == 0 then |bytes| else linkBytes, 0;
    rope := [];
    while at < |bytes|
      invariant 0 <= at && if at < |bytes| then FullLinks(rope, bytes, size, at) else FixedSplit(rope, bytes, size)
      decreases |bytes| - at
    {
      var n := if size < |bytes| - at then size else |bytes| - at;
      NextLink(rope, bytes, size, at, n);
      rope := rope + [bytes[at..at + n]];
      at := at + size;
    }
  }
}
