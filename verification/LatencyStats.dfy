/** The exact-quantile latency accumulator: every sample kept, quantiles read off the sorted array. */
module LatencyStats {
  import opened ByteOrder
  import opened Sorting

  const TAIL_SAMPLE_FLOOR: nat := 10000

  datatype Summary = Summary(p50: nat, p99: nat, mean: nat, p999: nat, max: nat, n: nat, tailOk: bool)

  /** The 0-based index of the quantile `permille`/1000 among `n` samples. */
  function QuantileIndex(n: nat, permille: nat): (i: nat)
    requires n > 0
    ensures i < n
  {
    var k := permille * n / 1000;
    if k < n then k else n - 1
  }

  /** The figures of a sorted, non-empty collection whose 64-bit sum is `sum`. */
  function Figures(t: seq<nat>, sum: nat): Summary
    requires t != []
  {
    var n := |t|;
    Summary(t[QuantileIndex(n, 500)], t[QuantileIndex(n, 990)], sum / n,
            t[QuantileIndex(n, 999)], t[n - 1], n, n >= TAIL_SAMPLE_FLOOR)
  }

  function Summarize(s: seq<nat>): Summary {
    if s == [] then Summary(0, 0, 0, 0, 0, 0, false) else Figures(Sort(s), Sum(Sort(s)) % U64)
  }

  class Latency {
    var samples: seq<nat>

    constructor ()
      ensures samples == []
    {
      samples := [];
    }

    method Add(ns: nat)
      modifies this
      ensures samples == old(samples) + [ns]
    {
      samples := samples + [ns];
    }

    /** Absorb another collector's samples: concatenation, no decimation. */
    method Merge(other: Latency)
      modifies this
      ensures samples == old(samples) + old(other.samples)
    {
      samples := samples + other.samples;
    }

    /** Sort in place, then read the quantiles, the mean (of a 64-bit sum) and the maximum. */
    method Report() returns (r: Summary)
      modifies this
      ensures r == Summarize(old(samples)) && multiset(samples) == multiset(old(samples))
    {
      if samples == [] {
        return Summary(0, 0, 0, 0, 0, 0, false);
      }
      SortSorts(samples);
      samples := Sort(samples);
      var sum := Accumulate(samples);
      r := Figures(samples, sum);
    }
  }

  /** The 64-bit sum of the samples. */
  method Accumulate(s: seq<nat>) returns (sum: nat)
    ensures sum == Sum(s) % U64
  {
    sum := 0;
    for i := 0 to |s|
      invariant sum == Sum(s[..i]) % U64
    {
      assert s[..i + 1][..i] == s[..i];
      ModAdd(s[i], Sum(s[..i]));
      sum := (sum + s[i]) % U64;
    }
    assert s[..|s|] == s;
  }

  lemma ModAdd(x: nat, y: nat)
    ensures (y % U64 + x) % U64 == (x + y) % U64
  {
  }

  // --- What the figures mean ------------------------------------------------------------------

  /** The summary depends on the multiset of samples alone. */
  lemma SummaryOfMultiset(a: seq<nat>, b: seq<nat>)
    requires multiset(a) == multiset(b)
    ensures Summarize(a) == Summarize(b)
  {
    SortOfMultiset(a, b);
  }

  /** Collectors may be merged in any order. */
  lemma MergeOrder(a: seq<nat>, b: seq<nat>, c: seq<nat>)
    ensures Summarize(a + b + c) == Summarize(c + b + a) == Summarize(b + a + c)
  {
    SummaryOfMultiset(a + b + c, c + b + a);
    SummaryOfMultiset(a + b + c, b + a + c);
  }

  /** Each quantile is the order statistic at its index, said of the samples as they came. */
  lemma QuantileMeaning(s: seq<nat>, permille: nat, v: nat)
    requires s != []
    ensures var k := QuantileIndex(|s|, permille);
            v == Sort(s)[k] <==> CountBelow(s, v) <= k < CountBelow(s, v + 1)
  {
    OrderStatistic(s, QuantileIndex(|s|, permille), v);
  }

  lemma IndicesOrdered(n: nat)
    requires n > 0
    ensures QuantileIndex(n, 500) <= QuantileIndex(n, 990) <= QuantileIndex(n, 999) <= n - 1
  {
  }

  lemma SortedLast(s: seq<nat>, t: seq<nat>)
    requires Sorted(t) && multiset(t) == multiset(s) && t != []
    ensures t[|t| - 1] in s && forall x :: x in s ==> x <= t[|t| - 1]
  {
    assert t[|t| - 1] in multiset(s);
    forall x | x in s ensures x <= t[|t| - 1] {
      assert x in multiset(t);
      var i :| 0 <= i < |t| && t[i] == x;
    }
  }

  lemma FiguresOrdered(t: seq<nat>, sum: nat)
    requires Sorted(t) && t != []
    ensures var r := Figures(t, sum); r.p50 <= r.p99 <= r.p999 <= r.max == t[|t| - 1] && r.n == |t|
  {
    IndicesOrdered(|t|);
  }

  lemma SummaryOrdered(s: seq<nat>)
    ensures var r := Summarize(s); r.p50 <= r.p99 <= r.p999 <= r.max && r.n == |s|
    ensures s != [] ==> Summarize(s).max in s && forall x :: x in s ==> x <= Summarize(s).max
  {
    if s != [] {
      SortSorts(s);
      FiguresOrdered(Sort(s), Sum(Sort(s)) % U64);
      SortedLast(s, Sort(s));
    }
  }

  /** Samples above the p999 index: none exactly up to 1000 samples, at least 9 once the tail counts. */
  lemma TailSamples(n: nat)
    requires n > 0
    ensures var above := n - 1 - QuantileIndex(n, 999);
            && above == n - 1 - 999 * n / 1000
            && (above == 0 <==> n <= 1000)
            && (n >= TAIL_SAMPLE_FLOOR ==> above >= 9)
  {
  }

  /** Up to 1000 samples the p999 is the maximum. */
  lemma SmallTailIsMax(s: seq<nat>)
    requires 0 < |s| <= 1000
    ensures Summarize(s).p999 == Summarize(s).max && !Summarize(s).tailOk
  {
    TailSamples(|s|);
  }
}
