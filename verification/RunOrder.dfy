/** The order in which each round of an A/A measurement runs the builds: rotated, odd rounds reversed. */
module RunOrder {
  import opened ByteOrder

  function Range(n: nat): (s: seq<nat>)
    ensures |s| == n && forall i :: 0 <= i < n ==> s[i] == i
  {
    seq(n, i => i)
  }

  function Reversed(s: seq<nat>): (r: seq<nat>)
    ensures |r| == |s| && forall i :: 0 <= i < |s| ==> r[i] == s[|s| - 1 - i]
  {
    if s == [] then [] else Reversed(s[1..]) + [s[0]]
  }

  /** The builds from `q` on, then those before it. */
  function Rotated(n: nat, q: nat): (o: seq<nat>)
    requires q < n
    ensures |o| == n && o[0] == q && o[n - 1] == if q == 0 then n - 1 else q - 1
  {
    Range(n)[q..] + Range(n)[..q]
  }

  /** Round `r`'s order over `n` builds. */
  function Order(n: nat, r: nat): (o: seq<nat>)
    requires n > 0
    ensures |o| == n
  {
    if r % 2 == 1 then Reversed(Rotated(n, r % n)) else Rotated(n, r % n)
  }

  lemma {:induction false} ReversedPermutes(s: seq<nat>)
    ensures multiset(Reversed(s)) == multiset(s)
  {
    if s != [] {
      ReversedPermutes(s[1..]);
      assert s == [s[0]] + s[1..];
    }
  }

  lemma RotatedPermutes(n: nat, q: nat)
    requires q < n
    ensures multiset(Rotated(n, q)) == multiset(Range(n))
  {
    assert Range(n) == Range(n)[..q] + Range(n)[q..];
  }

  /** Every round runs every build exactly once. */
  lemma OrderPermutes(n: nat, r: nat)
    requires n > 0
    ensures multiset(Order(n, r)) == multiset(Range(n))
  {
    RotatedPermutes(n, r % n);
    ReversedPermutes(Rotated(n, r % n));
  }

  /** The build that leads round `r`: rounds go in pairs, the even round of a pair naming it for both. */
  function Lead(n: nat, r: nat): nat
    requires n > 0
  {
    (r - r % 2) % n
  }

  lemma LeaderOf(n: nat, r: nat)
    requires n > 0
    ensures Order(n, r)[0] == Lead(n, r)
  {
    var q := r % n;
    if r % 2 == 1 {
      assert Order(n, r)[0] == Rotated(n, q)[n - 1];
      PreviousMod(n, r);
    }
  }

  lemma PreviousMod(n: nat, r: nat)
    requires n > 0 && r > 0
    ensures (r - 1) % n == if r % n == 0 then n - 1 else r % n - 1
  {
    var k, q := r / n, r % n;
    assert r == k * n + q;
    if q == 0 {
      assert r - 1 == (k - 1) * n + (n - 1);
      ModUnique(r - 1, n, k - 1, n - 1);
    } else {
      ModUnique(r - 1, n, k, q - 1);
    }
  }

  // --- Counting leaders -------------------------------------------------------------------------

  /** How often `lead` is `b` in the `count` rounds from `from` on. */
  function Times(lead: nat -> nat, b: nat, from: nat, count: nat): nat
    decreases count
  {
    if count == 0 then 0 else (if lead(from) == b then 1 else 0) + Times(lead, b, from + 1, count - 1)
  }

  lemma {:induction false} TimesSplit(lead: nat -> nat, b: nat, from: nat, i: nat, j: nat)
    ensures Times(lead, b, from, i + j) == Times(lead, b, from, i) + Times(lead, b, from + i, j)
    decreases i
  {
    if i > 0 { TimesSplit(lead, b, from + 1, i - 1, j); }
  }

  /** A periodic leader counts alike over any one period. */
  lemma {:induction false} AnyPeriod(lead: nat -> nat, b: nat, from: nat, period: nat)
    requires period > 0 && forall r: nat :: lead(r + period) == lead(r)
    ensures Times(lead, b, from, period) == Times(lead, b, 0, period)
  {
    if from > 0 {
      AnyPeriod(lead, b, from - 1, period);
      TimesSplit(lead, b, from, period - 1, 1);
      assert lead(from - 1 + period) == lead(from - 1);
    }
  }

  /** Of `n` pairs of rounds, from pair `i` on, `b` leads the one numbered `half` and no other. */
  lemma {:induction false} OnePair(lead: nat -> nat, b: nat, n: nat, half: nat, i: nat)
    requires i <= n && half < n
    requires forall j: nat :: j < n ==> (lead(2 * j) == b <==> j == half) && lead(2 * j + 1) == lead(2 * j)
    ensures Times(lead, b, 2 * i, 2 * (n - i)) == if i <= half then 2 else 0
    decreases n - i
  {
    if i < n {
      OnePair(lead, b, n, half, i + 1);
      assert lead(2 * i + 1) == lead(2 * i);
      assert Times(lead, b, 2 * i + 1, 2 * (n - i) - 1)
          == (if lead(2 * i + 1) == b then 1 else 0) + Times(lead, b, 2 * (i + 1), 2 * (n - (i + 1)));
    }
  }

  lemma {:induction false} NeverLeads(lead: nat -> nat, b: nat, from: nat, count: nat)
    requires forall r: nat :: lead(r) != b
    ensures Times(lead, b, from, count) == 0
    decreases count
  {
    if count > 0 { NeverLeads(lead, b, from + 1, count - 1); }
  }

  /** The first build of each round, and the lead the round's number gives. */
  function FirstBuild(n: nat): nat -> nat
    requires n > 0
  {
    (r: nat) => Order(n, r)[0]
  }

  function LeadOf(n: nat): nat -> nat
    requires n > 0
  {
    (r: nat) => Lead(n, r)
  }

  lemma {:induction false} TimesSame(f: nat -> nat, g: nat -> nat, b: nat, from: nat, count: nat)
    requires forall r: nat :: f(r) == g(r)
    ensures Times(f, b, from, count) == Times(g, b, from, count)
    decreases count
  {
    if count > 0 { TimesSame(f, g, b, from + 1, count - 1); }
  }

  lemma FirstIsLead(n: nat)
    requires n > 0
    ensures forall r: nat :: FirstBuild(n)(r) == LeadOf(n)(r)
  {
    forall r: nat ensures FirstBuild(n)(r) == LeadOf(n)(r) { LeaderOf(n, r); }
  }

  lemma LeadPeriodic(n: nat, r: nat)
    requires n > 0
    ensures Lead(n, r + 2 * n) == Lead(n, r)
  {
    var x := r - r % 2;
    assert r + 2 * n - (r + 2 * n) % 2 == x + 2 * n;
    var k, m := x / n, x % n;
    assert x == k * n + m;
    assert x + 2 * n == (k + 2) * n + m;
    ModUnique(x + 2 * n, n, k + 2, m);
  }

  /** Which `i` below an odd `n` has `2 * i` equal to `b` modulo `n`. */
  function Half(n: nat, b: nat): nat {
    if b % 2 == 0 then b / 2 else (b + n) / 2
  }

  lemma DoubleMod(n: nat, i: nat)
    requires i < n
    ensures 2 * i % n == if 2 * i < n then 2 * i else 2 * i - n
  {
    if 2 * i < n {
      ModUnique(2 * i, n, 0, 2 * i);
    } else {
      ModUnique(2 * i, n, 1, 2 * i - n);
    }
  }

  lemma PairLead(n: nat, i: nat)
    requires n > 0
    ensures Lead(n, 2 * i) == 2 * i % n && Lead(n, 2 * i + 1) == 2 * i % n
  {
    assert 2 * i % 2 == 0 && (2 * i + 1) % 2 == 1;
  }

  lemma HalfDoubles(n: nat, b: nat, i: nat)
    requires n % 2 == 1 && b < n && i < n
    ensures (if 2 * i < n then 2 * i else 2 * i - n) == b <==> i == Half(n, b)
  {
  }

  lemma OddLeads(n: nat, b: nat, i: nat)
    requires n % 2 == 1 && b < n && i < n
    ensures (Lead(n, 2 * i) == b <==> i == Half(n, b)) && Lead(n, 2 * i + 1) == Lead(n, 2 * i)
  {
    PairLead(n, i);
    DoubleMod(n, i);
    HalfDoubles(n, b, i);
  }

  /** For an even number of builds only even-numbered ones lead. */
  lemma EvenLeads(n: nat, r: nat)
    requires n > 0 && n % 2 == 0
    ensures Lead(n, r) % 2 == 0
  {
    var x, c := r - r % 2, n / 2;
    var q, m := x / n, x % n;
    assert n == 2 * c && x == 2 * (x / 2);
    assert x == q * n + m;
    assert q * n == 2 * (q * c);
    assert m == 2 * (x / 2 - q * c);
  }

  /** Every build goes first exactly twice in any `2 * n` consecutive rounds. */
  ghost predicate Balanced(n: nat)
    requires n > 0
  {
    forall b: nat, from: nat :: b < n ==> Times(FirstBuild(n), b, from, 2 * n) == 2
  }

  lemma OddTimes(n: nat, b: nat, from: nat)
    requires n % 2 == 1 && b < n
    ensures Times(LeadOf(n), b, from, 2 * n) == 2
  {
    var lead := LeadOf(n);
    forall r: nat ensures lead(r + 2 * n) == lead(r) { LeadPeriodic(n, r); }
    forall j: nat | j < n ensures (lead(2 * j) == b <==> j == Half(n, b)) && lead(2 * j + 1) == lead(2 * j) {
      OddLeads(n, b, j);
    }
    AnyPeriod(lead, b, from, 2 * n);
    OnePair(lead, b, n, Half(n, b), 0);
  }

  /** The rotation is balanced exactly when the number of builds is odd. */
  lemma BalancedIffOdd(n: nat)
    requires n > 0
    ensures Balanced(n) <==> n % 2 == 1
  {
    FirstIsLead(n);
    if n % 2 == 1 {
      forall b: nat, from: nat | b < n ensures Times(FirstBuild(n), b, from, 2 * n) == 2 {
        TimesSame(FirstBuild(n), LeadOf(n), b, from, 2 * n);
        OddTimes(n, b, from);
      }
    } else {
      EvenNeverOne(n);
    }
  }

  lemma EvenNeverOne(n: nat)
    requires n > 0 && n % 2 == 0
    ensures Times(FirstBuild(n), 1, 0, 2 * n) == 0
  {
    FirstIsLead(n);
    TimesSame(FirstBuild(n), LeadOf(n), 1, 0, 2 * n);
    forall r: nat ensures LeadOf(n)(r) != 1 { EvenLeads(n, r); }
    NeverLeads(LeadOf(n), 1, 0, 2 * n);
  }
}
