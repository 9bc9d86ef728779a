/** Sorting as a function of the samples, and what an order statistic says of the samples as they came. */
module Sorting {

  ghost predicate Sorted(s: seq<nat>) {
    forall i, j :: 0 <= i < j < |s| ==> s[i] <= s[j]
  }

  function Sum(s: seq<nat>): nat {
    if s == [] then 0 else Sum(s[..|s| - 1]) + s[|s| - 1]
  }

  function Insert(x: nat, s: seq<nat>): seq<nat> {
    if s == [] || x <= s[0] then [x] + s else [s[0]] + Insert(x, s[1..])
  }

  /** The samples in ascending order. */
  function Sort(s: seq<nat>): (t: seq<nat>)
    ensures |t| == |s|
  {
    if s == [] then [] else
      var t := Insert(s[0], Sort(s[1..]));
      assert |t| == |s| by { InsertSize(s[0], Sort(s[1..])); }
      t
  }

  lemma {:induction false} InsertSize(x: nat, s: seq<nat>)
    ensures |Insert(x, s)| == |s| + 1
  {
    if s != [] && x > s[0] { InsertSize(x, s[1..]); }
  }

  lemma {:induction false} InsertSorts(x: nat, s: seq<nat>)
    requires Sorted(s)
    ensures Insert(x, s) != [] && Insert(x, s)[0] == if s == [] || x <= s[0] then x else s[0]
    ensures Sorted(Insert(x, s))
    ensures multiset(Insert(x, s)) == multiset{x} + multiset(s)
  {
    if s != [] && x > s[0] {
      InsertSorts(x, s[1..]);
      SortedCons(s[0], Insert(x, s[1..]));
      assert s == [s[0]] + s[1..];
    } else if s != [] {
      SortedCons(x, s);
    }
  }

  lemma SortedCons(x: nat, t: seq<nat>)
    requires Sorted(t) && (t != [] ==> x <= t[0])
    ensures Sorted([x] + t)
  {
    forall i, j | 0 <= i < j < |[x] + t| ensures ([x] + t)[i] <= ([x] + t)[j] {
      assert t[0] <= t[j - 1];
    }
  }

  lemma {:induction false} SortSorts(s: seq<nat>)
    ensures Sorted(Sort(s)) && multiset(Sort(s)) == multiset(s)
  {
    if s != [] {
      SortSorts(s[1..]);
      InsertSorts(s[0], Sort(s[1..]));
      assert s == [s[0]] + s[1..];
    }
  }

  // --- Counting below a value -------------------------------------------------------------------

  function CountBelow(s: seq<nat>, v: nat): nat {
    if s == [] then 0 else (if s[0] < v then 1 else 0) + CountBelow(s[1..], v)
  }

  lemma {:induction false} CountBelowConcat(a: seq<nat>, b: seq<nat>, v: nat)
    ensures CountBelow(a + b, v) == CountBelow(a, v) + CountBelow(b, v)
  {
    if a == [] {
      assert a + b == b;
    } else {
      CountBelowConcat(a[1..], b, v);
      assert (a + b)[1..] == a[1..] + b;
    }
  }

  /** Inserting and sorting keep the counts. */
  lemma {:induction false} CountBelowInsert(x: nat, s: seq<nat>, v: nat)
    ensures CountBelow(Insert(x, s), v) == CountBelow(s, v) + if x < v then 1 else 0
  {
    if s == [] || x <= s[0] {
      assert ([x] + s)[1..] == s;
    } else {
      CountBelowInsert(x, s[1..], v);
      assert ([s[0]] + Insert(x, s[1..]))[1..] == Insert(x, s[1..]);
    }
  }

  lemma {:induction false} CountBelowSort(s: seq<nat>, v: nat)
    ensures CountBelow(Sort(s), v) == CountBelow(s, v)
  {
    if s != [] {
      CountBelowSort(s[1..], v);
      CountBelowInsert(s[0], Sort(s[1..]), v);
    }
  }

  lemma {:induction false} CountBelowAll(s: seq<nat>, v: nat, below: bool)
    requires forall i :: 0 <= i < |s| ==> (s[i] < v) == below
    ensures CountBelow(s, v) == if below then |s| else 0
  {
    if s != [] { CountBelowAll(s[1..], v, below); }
  }

  lemma {:induction false} CountBelowAtMost(s: seq<nat>, v: nat)
    ensures CountBelow(s, v) <= |s|
  {
    if s != [] { CountBelowAtMost(s[1..], v); }
  }

  /** In a sorted sequence the element at `k` is not below `v` exactly when at most `k` elements are. */
  lemma SortedRank(t: seq<nat>, k: nat, v: nat)
    requires Sorted(t) && k < |t|
    ensures v <= t[k] <==> CountBelow(t, v) <= k
  {
    if v <= t[k] {
      assert t == t[..k] + t[k..];
      CountBelowConcat(t[..k], t[k..], v);
      CountBelowAll(t[k..], v, false);
      CountBelowAtMost(t[..k], v);
    } else {
      assert t == t[..k + 1] + t[k + 1..];
      CountBelowConcat(t[..k + 1], t[k + 1..], v);
      CountBelowAll(t[..k + 1], v, true);
    }
  }

  /**
   The order statistic: the sample at sorted index `k` is the one value with at most `k` samples
   below it and more than `k` samples at or below it, counted over the samples as they came.
   */
  lemma OrderStatistic(s: seq<nat>, k: nat, v: nat)
    requires k < |s|
    ensures v == Sort(s)[k] <==> CountBelow(s, v) <= k < CountBelow(s, v + 1)
  {
    SortSorts(s);
    SortedRank(Sort(s), k, v);
    SortedRank(Sort(s), k, v + 1);
    CountBelowSort(s, v);
    CountBelowSort(s, v + 1);
  }

  /** A multiset has one sorted arrangement. */
  lemma SortOfMultiset(a: seq<nat>, b: seq<nat>)
    requires multiset(a) == multiset(b)
    ensures |a| == |b| && Sort(a) == Sort(b)
  {
    assert |multiset(a)| == |a| && |multiset(b)| == |b|;
    forall k | 0 <= k < |a| ensures Sort(a)[k] == Sort(b)[k] {
      SameStatistic(a, b, k);
    }
  }

  lemma SameStatistic(a: seq<nat>, b: seq<nat>, k: nat)
    requires multiset(a) == multiset(b) && k < |a| == |b|
    ensures Sort(a)[k] == Sort(b)[k]
  {
    var v := Sort(a)[k];
    OrderStatistic(a, k, v);
    CountBelowPermuted(a, b, v);
    CountBelowPermuted(a, b, v + 1);
    RankedAt(b, k, v);
  }

  lemma RankedAt(b: seq<nat>, k: nat, v: nat)
    requires k < |b| && CountBelow(b, v) <= k < CountBelow(b, v + 1)
    ensures v == Sort(b)[k]
  {
    OrderStatistic(b, k, v);
  }

  /** How many samples lie below `v` is a property of the multiset. */
  lemma {:induction false} CountBelowPermuted(a: seq<nat>, b: seq<nat>, v: nat)
    requires multiset(a) == multiset(b)
    ensures CountBelow(a, v) == CountBelow(b, v)
    decreases |a|
  {
    if a == [] {
      assert |multiset(b)| == 0;
    } else {
      assert a[0] in multiset(b);
      var j :| 0 <= j < |b| && b[j] == a[0];
      var rest := b[..j] + b[j + 1..];
      RemoveOne(a, b, j);
      CountBelowPermuted(a[1..], rest, v);
      CountBelowConcat(b[..j], b[j..], v);
      CountBelowConcat(b[..j], b[j + 1..], v);
      assert b == b[..j] + b[j..] && b[j..][1..] == b[j + 1..];
    }
  }

  lemma FirstRemoved(a: seq<nat>)
    requires a != []
    ensures multiset(a) == multiset{a[0]} + multiset(a[1..])
  {
    assert a == [a[0]] + a[1..];
  }

  lemma MiddleRemoved(b: seq<nat>, j: nat)
    requires j < |b|
    ensures multiset(b) == multiset{b[j]} + multiset(b[..j] + b[j + 1..])
  {
    assert b == b[..j] + ([b[j]] + b[j + 1..]);
  }

  lemma RemoveOne(a: seq<nat>, b: seq<nat>, j: nat)
    requires multiset(a) == multiset(b) && a != [] && j < |b| && b[j] == a[0]
    ensures multiset(a[1..]) == multiset(b[..j] + b[j + 1..])
  {
    FirstRemoved(a);
    MiddleRemoved(b, j);
    SameRest(multiset{a[0]}, multiset(a[1..]), multiset(b[..j] + b[j + 1..]));
  }

  lemma SameRest(x: multiset<nat>, m: multiset<nat>, m': multiset<nat>)
    requires x + m == x + m'
    ensures m == m'
  {
    assert m == (x + m) - x && m' == (x + m') - x;
  }
}
