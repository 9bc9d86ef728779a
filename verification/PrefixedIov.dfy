/**
 * The gather of a stream transport: a length prefix and the spans of one record, laid out in a table
 * that lives in the object while it is short and on the heap when it is not.
 */
module PrefixedIov {
  import opened ByteOrder
  import opened Rope
  import opened Options
  import FrameSend

  const MAX_INLINE: nat := 16

  /** The spans that hold anything, in order. */
  function NonEmpty(iov: seq<Link>): seq<Link> {
    if iov == [] then []
    else
      var n := |iov| - 1;
      NonEmpty(iov[..n]) + if iov[n] == [] then [] else [iov[n]]
  }

  /** Dropping them loses no byte. */
  lemma {:induction false} NonEmptyConcat(iov: seq<Link>)
    ensures |NonEmpty(iov)| <= |iov| && Concat(NonEmpty(iov)) == Concat(iov)
  {
    if iov != [] {
      var n := |iov| - 1;
      var front, l := NonEmpty(iov[..n]), iov[n];
      NonEmptyConcat(iov[..n]);
      ConcatAppend(iov[..n], l);
      assert iov == iov[..n] + [l];
      if l != [] {
        ConcatAppend(front, l);
      } else {
        assert front + [] == front;
        assert Concat(iov[..n]) + [] == Concat(iov[..n]);
      }
    }
  }

  /** Only they are dropped. */
  lemma {:induction false} NonEmptyMembers(iov: seq<Link>, l: Link)
    ensures l in NonEmpty(iov) <==> l in iov && l != []
  {
    if iov != [] {
      var n := |iov| - 1;
      NonEmptyMembers(iov[..n], l);
      assert iov == iov[..n] + [iov[n]];
    }
  }

  function Total(iov: seq<Link>): nat {
    if iov == [] then 0 else Total(iov[..|iov| - 1]) + |iov[|iov| - 1]|
  }

  lemma {:induction false} TotalIs(iov: seq<Link>)
    ensures Total(iov) == |Concat(iov)|
  {
    if iov != [] {
      var n := |iov| - 1;
      TotalIs(iov[..n]);
      ConcatAppend(iov[..n], iov[n]);
      assert iov == iov[..n] + [iov[n]];
    }
  }

  /** The bytes before the first span. */
  function Prefix(iov: seq<Link>): Link {
    LeBytes(Total(iov), 4)
  }

  method SumSizes(iov: seq<Link>) returns (total: nat)
    ensures total == Total(iov)
  {
    total := 0;
    for i := 0 to |iov|
      invariant total == Total(iov[..i])
    {
      assert iov[..i + 1][..i] == iov[..i];
      total := total + |iov[i]|;
    }
    assert iov[..|iov|] == iov;
  }

  /** Lay the prefix and the spans that are not empty in `vec`, which is long enough for all of them. */
  method LayOut(vec: array<Link>, prefix: Link, iov: seq<Link>) returns (n: nat)
    requires vec.Length >= |iov| + 1
    modifies vec
    ensures n <= vec.Length && vec[..n] == [prefix] + NonEmpty(iov)
  {
    vec[0] := prefix;
    n := 1;
    for i := 0 to |iov|
      invariant 1 <= n <= i + 1
      invariant vec[..n] == [prefix] + NonEmpty(iov[..i])
    {
      assert iov[..i + 1][..i] == iov[..i];
      if iov[i] != [] {
        ghost var before := vec[..n];
        vec[n] := iov[i];
        n := n + 1;
        assert vec[..n] == before + [iov[i]];
      }
    }
    assert iov[..|iov|] == iov;
  }

  class Table {
    var prefix: Link
    const inlineVec: array<Link>
    var heapVec: array<Link>
    /** One of the two. */
    var vec: array<Link>
    var n: nat

    /** Total the spans, choose the table, fill it. The heap is touched from 17 spans on, and only then. */
    constructor (iov: seq<Link>)
      ensures n <= vec.Length && vec[..n] == [Prefix(iov)] + NonEmpty(iov)
      ensures inlineVec.Length == MAX_INLINE + 1
      ensures if |iov| <= MAX_INLINE then vec == inlineVec && heapVec.Length == 0
              else vec == heapVec && heapVec.Length == |iov| + 1
    {
      var total := SumSizes(iov);
      var short, long := new Link[MAX_INLINE + 1](_ => []), new Link[0];
      if |iov| + 1 > short.Length { long := new Link[|iov| + 1](_ => []); }
      inlineVec, heapVec := short, long;
      var table := if |iov| + 1 > short.Length then long else short;
      prefix := LeBytes(total, 4);
      vec := table;
      var filled := LayOut(table, LeBytes(total, 4), iov);
      n := filled;
    }
  }

  /** The table, written out in order, is one length-prefixed record of all the bytes of the spans. */
  lemma GatherIsAFrame(iov: seq<Link>)
    ensures Concat([Prefix(iov)] + NonEmpty(iov)) == FrameSend.Frame(FrameSend.Tcp, Concat(iov))
  {
    NonEmptyConcat(iov);
    TotalIs(iov);
    assert ([Prefix(iov)] + NonEmpty(iov))[1..] == NonEmpty(iov);
  }

  /** The other end reads back exactly the spans' bytes, exactly when their total fits the prefix. */
  lemma GatherRoundTrip(iov: seq<Link>, rest: seq<byte>)
    ensures FrameSend.DecodeTcp(Concat([Prefix(iov)] + NonEmpty(iov)) + rest) == Some((Concat(iov), rest)) <==>
            Total(iov) < U32
  {
    GatherIsAFrame(iov);
    TotalIs(iov);
    FrameSend.TcpRoundTrip(Concat(iov), rest);
  }
}
