/** Sets of numbers as ascending sequences: sorted, each number once. */
module NumberSet {

  ghost predicate Ascending(c: seq<nat>) {
    forall i, j :: 0 <= i < j < |c| ==> c[i] < c[j]
  }

  function InsertUnique(x: nat, c: seq<nat>): seq<nat> {
    if c == [] || x < c[0] then [x] + c
    else if x == c[0] then c
    else [c[0]] + InsertUnique(x, c[1..])
  }

  /** The numbers of `xs` in ascending order, each once. */
  function SortedSet(xs: seq<nat>): seq<nat> {
    if xs == [] then [] else InsertUnique(xs[|xs| - 1], SortedSet(xs[..|xs| - 1]))
  }

  lemma {:induction false} InsertUniqueKeeps(x: nat, c: seq<nat>)
    requires Ascending(c)
    ensures Ascending(InsertUnique(x, c))
    ensures InsertUnique(x, c) != [] && InsertUnique(x, c)[0] == if c == [] || x < c[0] then x else c[0]
    ensures forall y :: y in InsertUnique(x, c) <==> y == x || y in c
  {
    if c != [] && x > c[0] {
      InsertUniqueKeeps(x, c[1..]);
      assert c == [c[0]] + c[1..];
      AscendingCons(c[0], InsertUnique(x, c[1..]));
    } else if c != [] && x < c[0] {
      AscendingCons(x, c);
    }
  }

  lemma AscendingCons(x: nat, c: seq<nat>)
    requires Ascending(c) && (c != [] ==> x < c[0])
    ensures Ascending([x] + c)
  {
    forall i, j | 0 <= i < j < |[x] + c| ensures ([x] + c)[i] < ([x] + c)[j] {
      assert c[0] <= c[j - 1];
    }
  }

  lemma {:induction false} SortedSetKeeps(xs: seq<nat>)
    ensures Ascending(SortedSet(xs)) && forall y :: y in SortedSet(xs) <==> y in xs
  {
    if xs != [] {
      var n := |xs| - 1;
      SortedSetKeeps(xs[..n]);
      InsertUniqueKeeps(xs[n], SortedSet(xs[..n]));
      assert xs == xs[..n] + [xs[n]];
    }
  }

  /** A set has one ascending sequence. */
  lemma {:induction false} AscendingUnique(a: seq<nat>, b: seq<nat>)
    requires Ascending(a) && Ascending(b) && forall y :: y in a <==> y in b
    ensures a == b
    decreases |a|
  {
    assert a == [] || a[0] in a;
    assert b == [] || b[0] in b;
    if a != [] && b != [] {
      assert a[0] in b && b[0] in a;
      assert a[0] == b[0];
      forall y ensures y in a[1..] <==> y in b[1..] {
        RestOf(a, y);
        RestOf(b, y);
      }
      AscendingUnique(a[1..], b[1..]);
      assert a == [a[0]] + a[1..] && b == [b[0]] + b[1..];
    }
  }

  lemma RestOf(a: seq<nat>, y: nat)
    requires Ascending(a) && a != []
    ensures y in a[1..] <==> y in a && y != a[0]
  {
    assert a == [a[0]] + a[1..];
  }

  lemma SortedSetOfAscending(c: seq<nat>)
    requires Ascending(c)
    ensures SortedSet(c) == c
  {
    SortedSetKeeps(c);
    AscendingUnique(SortedSet(c), c);
  }
}
