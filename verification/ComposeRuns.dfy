/** Whole runs of the receiver-side counter, against the record stream its messages hold. */
module ComposeRuns {
  import opened ByteOrder
  import opened ComposeRecord
  import opened SubCounter

  datatype Message = Message(bytes: seq<byte>, at: nat)

  /** The counter after the messages, in order. */
  function Run(p: Point, c: Counts, ms: seq<Message>): Counts
    decreases |ms|
  {
    if ms == [] then c else Run(p, OnMessage(p, c, ms[0].bytes, ms[0].at), ms[1..])
  }

  /** All items of all messages, wherever the messages are cut. */
  function Stream(ms: seq<Message>): seq<Item> {
    if ms == [] then [] else Items(ms[0].bytes) + Stream(ms[1..])
  }

  /** Arrival times of the messages that carried throughput records before the end of the point. */
  function ThruTimes(p: Point, ms: seq<Message>): seq<nat> {
    if ms == [] then []
    else
      var s := Items(ms[0].bytes);
      (if ThruValues(p, s) > 0 then [ms[0].at] else []) + (if HasEnd(p, s) then [] else ThruTimes(p, ms[1..]))
  }

  /** Messages that carried any record of the point before its end. */
  function CountedMessages(p: Point, ms: seq<Message>): nat {
    if ms == [] then 0
    else
      var s := Items(ms[0].bytes);
      (if Values(p, s) > 0 then 1 else 0) + (if HasEnd(p, s) then 0 else CountedMessages(p, ms[1..]))
  }

  // --- One message --------------------------------------------------------------------------

  /** The walk of one message adds its values and its malformed items, and one message at most. */
  lemma {:induction false} WalkCounts(p: Point, w: Progress, s: seq<Item>, now: nat)
    requires !w.c.done
    ensures var w' := Walk(p, w, s, now);
            && w'.c.values == w.c.values + Values(p, s)
            && w'.c.bad == w.c.bad + Bad(p, s)
            && w'.c.done == HasEnd(p, s)
            && w'.c.messages == w.c.messages + (if Values(p, s) > 0 && !w.counted then 1 else 0)
    decreases |s|
  {
    if s != [] {
      var w1 := Step(p, w, s[0], now);
      if w1.c.done {
        assert IsEnd(p, s[0]) && Walk(p, w, s, now) == w1;
      } else {
        WalkCounts(p, w1, s[1..], now);
      }
    }
  }

  /** It adds its throughput values, one throughput message at most, and moves their span to now. */
  lemma {:induction false} WalkThru(p: Point, w: Progress, s: seq<Item>, now: nat)
    requires !w.c.done
    ensures var w' := Walk(p, w, s, now);
            && w'.c.thruValues == w.c.thruValues + ThruValues(p, s)
            && w'.c.thruMessages == w.c.thruMessages + (if ThruValues(p, s) > 0 && !w.countedThru then 1 else 0)
            && w'.c.thruLast == (if ThruValues(p, s) > 0 then now else w.c.thruLast)
            && w'.c.thruFirst == (if ThruValues(p, s) > 0 && w.c.thruValues == 0 then now else w.c.thruFirst)
    decreases |s|
  {
    if s != [] {
      var w1 := Step(p, w, s[0], now);
      if w1.c.done {
        assert IsEnd(p, s[0]) && Walk(p, w, s, now) == w1;
      } else {
        WalkThru(p, w1, s[1..], now);
      }
    }
  }

  /** The walk of one message adds the tallies of its items, and one message at most. */
  lemma WalkTally(p: Point, w: Progress, s: seq<Item>, now: nat)
    requires !w.c.done
    ensures var w' := Walk(p, w, s, now);
            && w'.c.values == w.c.values + Values(p, s)
            && w'.c.bad == w.c.bad + Bad(p, s)
            && w'.c.thruValues == w.c.thruValues + ThruValues(p, s)
            && w'.c.done == HasEnd(p, s)
            && w'.c.messages == w.c.messages + (if Values(p, s) > 0 && !w.counted then 1 else 0)
            && w'.c.thruMessages == w.c.thruMessages + (if ThruValues(p, s) > 0 && !w.countedThru then 1 else 0)
            && w'.c.thruLast == (if ThruValues(p, s) > 0 then now else w.c.thruLast)
            && w'.c.thruFirst == (if ThruValues(p, s) > 0 && w.c.thruValues == 0 then now else w.c.thruFirst)
  {
    WalkCounts(p, w, s, now);
    WalkThru(p, w, s, now);
  }

  // --- Every run ----------------------------------------------------------------------------

  lemma {:induction false} DoneStops(p: Point, c: Counts, ms: seq<Message>)
    requires c.done
    ensures Run(p, c, ms) == c
  {
    if ms != [] { DoneStops(p, c, ms[1..]); }
  }

  lemma {:induction false} TalliesConcat(p: Point, a: seq<Item>, b: seq<Item>)
    ensures HasEnd(p, a + b) == (HasEnd(p, a) || HasEnd(p, b))
    ensures Values(p, a + b) == Values(p, a) + (if HasEnd(p, a) then 0 else Values(p, b))
    ensures Bad(p, a + b) == Bad(p, a) + (if HasEnd(p, a) then 0 else Bad(p, b))
    ensures ThruValues(p, a + b) == ThruValues(p, a) + (if HasEnd(p, a) then 0 else ThruValues(p, b))
  {
    if a == [] {
      assert a + b == b;
    } else {
      TalliesConcat(p, a[1..], b);
      assert (a + b)[1..] == a[1..] + b;
    }
  }

  /**
   What every run counts, whatever bytes the messages hold: the values, the malformed items, the
   throughput values and the end are those of the record stream; the message counts and the span
   are those of the messages that carried such records.
   */
  lemma {:induction false} RunTally(p: Point, c: Counts, ms: seq<Message>)
    requires !c.done
    ensures var c', s, t := Run(p, c, ms), Stream(ms), ThruTimes(p, ms);
            && c'.values == c.values + Values(p, s) && c'.bad == c.bad + Bad(p, s)
            && c'.thruValues == c.thruValues + ThruValues(p, s) && c'.done == HasEnd(p, s)
            && c'.messages == c.messages + CountedMessages(p, ms)
            && c'.thruMessages == c.thruMessages + |t|
            && c'.thruLast == (if t != [] then t[|t| - 1] else c.thruLast)
            && c'.thruFirst == (if t != [] && c.thruValues == 0 then t[0] else c.thruFirst)
    decreases |ms|
  {
    if ms != [] {
      var s := Items(ms[0].bytes);
      var c1 := OnMessage(p, c, ms[0].bytes, ms[0].at);
      WalkTally(p, Progress(c, false, false), s, ms[0].at);
      TalliesConcat(p, s, Stream(ms[1..]));
      if c1.done {
        DoneStops(p, c1, ms[1..]);
      } else {
        RunTally(p, c1, ms[1..]);
      }
    }
  }

  /** Where messages are cut does not matter to what was counted in them. */
  lemma CutsDoNotMatter(p: Point, c: Counts, ms: seq<Message>, ms': seq<Message>)
    requires !c.done && Stream(ms) == Stream(ms')
    ensures var a, b := Run(p, c, ms), Run(p, c, ms');
            a.values == b.values && a.bad == b.bad && a.thruValues == b.thruValues && a.done == b.done
  {
    RunTally(p, c, ms);
    RunTally(p, c, ms');
  }

  function AsItems(rs: seq<seq<byte>>): seq<Item> {
    if rs == [] then [] else [Record(rs[0])] + AsItems(rs[1..])
  }

  /** A record that states its own length. */
  predicate Framed(r: seq<byte>) {
    |r| >= HEADER && Field(r, OFF_LEN, 4) == |r|
  }

  /** Such a record is the first item of whatever starts with it. */
  lemma ItemsCons(r: seq<byte>, d: seq<byte>)
    requires Framed(r)
    ensures Items(r + d) == [Record(r)] + Items(d)
  {
    assert (r + d)[0..4] == r[0..4] && (r + d)[..|r|] == r && (r + d)[|r|..] == d;
  }

  /** Whole records walk as themselves, whatever bytes follow them. */
  lemma {:induction false} ItemsAfterRecords(rs: seq<seq<byte>>, tail: seq<byte>)
    requires forall i :: 0 <= i < |rs| ==> Framed(rs[i])
    ensures Items(Concat(rs) + tail) == AsItems(rs) + Items(tail)
    decreases |rs|
  {
    if rs == [] {
      assert Concat(rs) + tail == tail;
      assert [] + Items(tail) == Items(tail);
    } else {
      var r, rest := rs[0], rs[1..];
      ItemsAfterRecords(rest, tail);
      RegroupBytes(r, Concat(rest), tail);
      ItemsCons(r, Concat(rest) + tail);
      Regroup([Record(r)], AsItems(rest), Items(tail));
    }
  }

  lemma RegroupBytes(a: seq<byte>, b: seq<byte>, c: seq<byte>)
    ensures a + (b + c) == a + b + c
  {
  }

  lemma Regroup(a: seq<Item>, b: seq<Item>, c: seq<Item>)
    ensures a + (b + c) == a + b + c
  {
  }

  /** One piece of a cut datagram: the whole records it carries, and when it arrives. */
  datatype Piece = Piece(records: seq<seq<byte>>, at: nat)

  function AllRecords(ps: seq<Piece>): seq<seq<byte>> {
    if ps == [] then [] else ps[0].records + AllRecords(ps[1..])
  }

  /** The pieces as messages; the last one carries the bytes after the last boundary too. */
  function Cut(ps: seq<Piece>, tail: seq<byte>): (ms: seq<Message>)
    ensures |ms| == |ps|
  {
    if ps == [] then []
    else if |ps| == 1 then [Message(Concat(ps[0].records) + tail, ps[0].at)]
    else [Message(Concat(ps[0].records), ps[0].at)] + Cut(ps[1..], tail)
  }

  ghost predicate AllFramed(rs: seq<seq<byte>>) {
    forall i :: 0 <= i < |rs| ==> Framed(rs[i])
  }

  lemma {:induction false} AsItemsConcat(a: seq<seq<byte>>, b: seq<seq<byte>>)
    ensures AsItems(a + b) == AsItems(a) + AsItems(b)
  {
    if a == [] {
      assert a + b == b;
    } else {
      AsItemsConcat(a[1..], b);
      assert (a + b)[1..] == a[1..] + b;
    }
  }

  lemma ItemsOfRecords(rs: seq<seq<byte>>)
    requires AllFramed(rs)
    ensures Items(Concat(rs)) == AsItems(rs)
  {
    ItemsAfterRecords(rs, []);
    assert Concat(rs) + [] == Concat(rs) && AsItems(rs) + Items([]) == AsItems(rs);
  }

  lemma {:induction false} FramedParts(a: seq<seq<byte>>, b: seq<seq<byte>>)
    requires AllFramed(a + b)
    ensures AllFramed(a) && AllFramed(b)
  {
    forall i | 0 <= i < |a| ensures Framed(a[i]) { assert (a + b)[i] == a[i]; }
    forall i | 0 <= i < |b| ensures Framed(b[i]) { assert (a + b)[|a| + i] == b[i]; }
  }

  lemma StreamCons(m: Message, ms: seq<Message>)
    ensures Stream([m] + ms) == Items(m.bytes) + Stream(ms)
  {
    assert ([m] + ms)[1..] == ms;
  }

  lemma AllRecordsOne(ps: seq<Piece>)
    requires |ps| == 1
    ensures AllRecords(ps) == ps[0].records
  {
    assert AllRecords(ps[1..]) == [];
    assert ps[0].records + [] == ps[0].records;
  }

  /** Cutting leaves the stream of items as it is. */
  lemma {:induction false} CutStream(ps: seq<Piece>, tail: seq<byte>)
    requires ps != [] && AllFramed(AllRecords(ps))
    ensures Stream(Cut(ps, tail)) == AsItems(AllRecords(ps)) + Items(tail)
    decreases |ps|, 1
  {
    if |ps| == 1 {
      AllRecordsOne(ps);
      ItemsAfterRecords(ps[0].records, tail);
      StreamOne(Message(Concat(ps[0].records) + tail, ps[0].at));
    } else {
      CutStreamStep(ps, ps[0].records, AllRecords(ps[1..]), tail);
    }
  }

  lemma CutStreamStep(ps: seq<Piece>, rs: seq<seq<byte>>, rest: seq<seq<byte>>, tail: seq<byte>)
    requires |ps| > 1 && rs == ps[0].records && rest == AllRecords(ps[1..]) && AllFramed(rs + rest)
    ensures Stream(Cut(ps, tail)) == AsItems(rs + rest) + Items(tail)
    decreases |ps|, 0
  {
    FramedParts(rs, rest);
    CutStream(ps[1..], tail);
    StreamCons(Message(Concat(rs), ps[0].at), Cut(ps[1..], tail));
    ItemsOfRecords(rs);
    AsItemsConcat(rs, rest);
    Regroup(AsItems(rs), AsItems(rest), Items(tail));
  }

  lemma StreamOne(m: Message)
    ensures Stream([m]) == Items(m.bytes)
  {
    assert [m][1..] == [] && Items(m.bytes) + [] == Items(m.bytes);
  }

  /** At least one message counts exactly when some record does, and no more than there are. */
  lemma {:induction false} CountedSome(p: Point, ms: seq<Message>)
    ensures CountedMessages(p, ms) <= |ms| && |ThruTimes(p, ms)| <= |ms|
    ensures CountedMessages(p, ms) > 0 <==> Values(p, Stream(ms)) > 0
    ensures |ThruTimes(p, ms)| > 0 <==> ThruValues(p, Stream(ms)) > 0
  {
    if ms != [] {
      CountedSome(p, ms[1..]);
      TalliesConcat(p, Items(ms[0].bytes), Stream(ms[1..]));
    }
  }

  /**
   The cut theorem: a datagram cut at record boundaries into any number of pieces, each arriving at a
   time of its own, counts what it counts whole at any time, and at most one message more a cut.
   */
  lemma CutDatagram(p: Point, c: Counts, ps: seq<Piece>, tail: seq<byte>, now: nat)
    requires !c.done && ps != [] && AllFramed(AllRecords(ps))
    ensures var a := Run(p, c, [Message(Concat(AllRecords(ps)) + tail, now)]);
            var b := Run(p, c, Cut(ps, tail));
            && a.values == b.values && a.bad == b.bad && a.thruValues == b.thruValues && a.done == b.done
            && a.messages <= b.messages <= a.messages + |ps| - 1
            && a.thruMessages <= b.thruMessages <= a.thruMessages + |ps| - 1
  {
    var whole, cut := [Message(Concat(AllRecords(ps)) + tail, now)], Cut(ps, tail);
    ItemsAfterRecords(AllRecords(ps), tail);
    StreamOne(whole[0]);
    CutStream(ps, tail);
    CutsDoNotMatter(p, c, whole, cut);
    CountCuts(p, c, whole, cut);
  }

  lemma CountCuts(p: Point, c: Counts, whole: seq<Message>, cut: seq<Message>)
    requires !c.done && |whole| == 1 <= |cut| && Stream(whole) == Stream(cut)
    ensures var a, b := Run(p, c, whole), Run(p, c, cut);
            && a.messages <= b.messages <= a.messages + |cut| - 1
            && a.thruMessages <= b.thruMessages <= a.thruMessages + |cut| - 1
  {
    RunTally(p, c, whole);
    RunTally(p, c, cut);
    CountedSome(p, whole);
    CountedSome(p, cut);
  }

  // --- The orderings ------------------------------------------------------------------------

  lemma {:induction false} ThruAmongValues(p: Point, s: seq<Item>)
    ensures ThruValues(p, s) <= Values(p, s)
  {
    if s != [] && !IsEnd(p, s[0]) { ThruAmongValues(p, s[1..]); }
  }

  ghost predicate Ordered(c: Counts) {
    && c.thruMessages <= c.messages <= c.values && c.thruMessages <= c.thruValues <= c.values
    && (c.thruValues > 0 <==> c.thruMessages > 0)
  }

  /** Every sequence of arbitrary byte messages keeps the counts in order. */
  lemma {:induction false} RunOrdered(p: Point, c: Counts, ms: seq<Message>)
    requires Ordered(c)
    ensures Ordered(Run(p, c, ms))
    decreases |ms|
  {
    if ms != [] && !c.done {
      var s := Items(ms[0].bytes);
      WalkTally(p, Progress(c, false, false), s, ms[0].at);
      ThruAmongValues(p, s);
      RunOrdered(p, OnMessage(p, c, ms[0].bytes, ms[0].at), ms[1..]);
    } else if c.done {
      DoneStops(p, c, ms);
    }
  }

  // --- What a published point rests on --------------------------------------------------------

  ghost predicate AllOurs(p: Point, s: seq<Item>) {
    forall i :: 0 <= i < |s| ==> Ours(p, s[i])
  }

  lemma AllOursCons(p: Point, it: Item, s: seq<Item>)
    ensures AllOurs(p, [it] + s) <==> Ours(p, it) && AllOurs(p, s)
  {
    if AllOurs(p, [it] + s) {
      assert ([it] + s)[0] == it;
      forall i | 0 <= i < |s| ensures Ours(p, s[i]) { assert ([it] + s)[i + 1] == s[i]; }
    }
  }

  lemma {:induction false} BadIffForeign(p: Point, s: seq<Item>)
    ensures Bad(p, s) == 0 <==> AllOurs(p, Before(p, s))
  {
    if s != [] && !IsEnd(p, s[0]) {
      BadIffForeign(p, s[1..]);
      AllOursCons(p, s[0], Before(p, s[1..]));
    }
  }

  /**
   A point is published exactly when every item walked before its end was a record with the right
   magic, width and nonce, enough messages carried throughput records, and they span some time.
   A tail of a message that is shorter than a record header is not walked, so it does not count.
   What the published figures are divided by is then not 0.
   */
  lemma PublishedIff(p: Point, ms: seq<Message>)
    ensures var s, t := Stream(ms), ThruTimes(p, ms);
            Publishable(p, Run(p, ZERO, ms)) <==>
              && AllOurs(p, Before(p, s))
              && |t| > 0 && |t| >= p.minThruMessages && t[|t| - 1] > t[0]
    ensures var c := Run(p, ZERO, ms); Publishable(p, c) ==> c.thruMessages > 0 && c.thruLast - c.thruFirst > 0
  {
    RunTally(p, ZERO, ms);
    BadIffForeign(p, Stream(ms));
    ThruAmongValues(p, Stream(ms));
    CountedSome(p, ms);
  }

  // --- The groups the publisher sends ---------------------------------------------------------

  /** Items that are all throughput records of the point, or all foreign. */
  lemma {:induction false} TallyUniform(p: Point, s: seq<Item>, ours: bool)
    requires forall i :: 0 <= i < |s| ==> Ours(p, s[i]) == ours && (ours ==> IsThru(p, s[i]))
    ensures !HasEnd(p, s) && Values(p, s) == ThruValues(p, s) == (if ours then |s| else 0)
    ensures Bad(p, s) == if ours then 0 else |s|
  {
    if s != [] { TallyUniform(p, s[1..], ours); }
  }

  lemma {:induction false} AsItemsAt(rs: seq<seq<byte>>)
    ensures |AsItems(rs)| == |rs| && forall i :: 0 <= i < |rs| ==> AsItems(rs)[i] == Record(rs[i])
  {
    if rs != [] { AsItemsAt(rs[1..]); }
  }

  /** A record of a group is ours exactly when the group's width fits its 16-bit field. */
  lemma FieldsOurs(r: seq<byte>, k: nat, p: Point)
    requires HEADER <= |r| < U32 && p.width == k && r[OFF_PHASE] == THROUGHPUT
    requires Field(r, OFF_LEN, 4) == |r| % U32 && Field(r, OFF_MAGIC, 2) == MAGIC
    requires Field(r, OFF_WIDTH, 2) == k % U16 && Field(r, OFF_RUN, 4) == p.runId
    ensures Framed(r) && Ours(p, Record(r)) == (k < U16) && (k < U16 ==> IsThru(p, Record(r)))
  {
  }

  lemma GroupItem(k: nat, valueBytes: nat, i: nat, runId: nat, p: Point)
    requires HEADER <= valueBytes < U32 && runId < U32 && p.width == k && p.runId == runId
    ensures var r := RecordBytes(k, valueBytes, i, THROUGHPUT, runId);
            Framed(r) && Ours(p, Record(r)) == (k < U16) && (k < U16 ==> IsThru(p, Record(r)))
  {
    RecordFields(k, valueBytes, i, THROUGHPUT, runId);
    FieldsOurs(RecordBytes(k, valueBytes, i, THROUGHPUT, runId), k, p);
  }

  lemma GroupItems(k: nat, valueBytes: nat, runId: nat, p: Point)
    requires HEADER <= valueBytes < U32 && runId < U32 && p.width == k && p.runId == runId
    ensures var g := Group(k, valueBytes, THROUGHPUT, runId);
            forall i :: 0 <= i < k ==>
              Framed(g[i]) && Ours(p, Record(g[i])) == (k < U16) && (k < U16 ==> IsThru(p, Record(g[i])))
  {
    forall i: nat | i < k
      ensures var r := Group(k, valueBytes, THROUGHPUT, runId)[i];
              Framed(r) && Ours(p, Record(r)) == (k < U16) && (k < U16 ==> IsThru(p, Record(r)))
    {
      GroupItem(k, valueBytes, i, runId, p);
    }
  }

  /**
   A whole throughput group in one datagram adds exactly `k` values and one message, exactly when
   `k` fits its field; a wider group is counted malformed, record by record.
   */
  lemma WholeGroupCounted(k: nat, valueBytes: nat, runId: nat, floor: nat, c: Counts, now: nat)
    requires 1 <= k && HEADER <= valueBytes < U32 && runId < U32 && !c.done
    ensures var c' := OnMessage(Point(k, runId, floor), c, Concat(Group(k, valueBytes, THROUGHPUT, runId)), now);
            if k < U16 then
              && c'.values == c.values + k && c'.thruValues == c.thruValues + k && c'.bad == c.bad && !c'.done
              && c'.messages == c.messages + 1 && c'.thruMessages == c.thruMessages + 1
            else c'.values == c.values && c'.bad == c.bad + k && c'.messages == c.messages
  {
    var p, g := Point(k, runId, floor), Group(k, valueBytes, THROUGHPUT, runId);
    GroupItems(k, valueBytes, runId, p);
    ItemsAfterRecords(g, []);
    assert Concat(g) + [] == Concat(g) && AsItems(g) + Items([]) == AsItems(g);
    AsItemsAt(g);
    TallyUniform(p, AsItems(g), k < U16);
    WalkTally(p, Progress(c, false, false), AsItems(g), now);
  }

  /** Each record of a group as a message of its own, the `i`-th at time `at(i)`. */
  function PerValue(g: seq<seq<byte>>, at: nat -> nat): seq<Message> {
    seq(|g|, i requires 0 <= i < |g| => Message(g[i], at(i)))
  }

  /** A message that is one throughput record. */
  ghost predicate OneThru(p: Point, m: Message) {
    var s := Items(m.bytes);
    Values(p, s) == 1 && ThruValues(p, s) == 1 && Bad(p, s) == 0 && !HasEnd(p, s)
  }

  lemma OneRecordMessage(p: Point, m: Message)
    requires Framed(m.bytes) && IsThru(p, Record(m.bytes))
    ensures OneThru(p, m)
  {
    ItemsCons(m.bytes, []);
    assert m.bytes + [] == m.bytes && [Record(m.bytes)] + Items([]) == [Record(m.bytes)];
    TallyUniform(p, [Record(m.bytes)], true);
  }

  lemma {:induction false} PerValueStream(p: Point, ms: seq<Message>)
    requires forall i :: 0 <= i < |ms| ==> OneThru(p, ms[i])
    ensures Values(p, Stream(ms)) == ThruValues(p, Stream(ms)) == |ms|
    ensures Bad(p, Stream(ms)) == 0 && !HasEnd(p, Stream(ms))
    ensures |ThruTimes(p, ms)| == CountedMessages(p, ms) == |ms|
    decreases |ms|
  {
    if ms != [] {
      assert OneThru(p, ms[0]);
      PerValueStream(p, ms[1..]);
      TalliesConcat(p, Items(ms[0].bytes), Stream(ms[1..]));
    }
  }

  /** The same group sent one record a message adds the same `k` values, and `k` messages. */
  lemma PerValueGroupCounted(k: nat, valueBytes: nat, runId: nat, floor: nat, c: Counts, at: nat -> nat)
    requires 1 <= k < U16 && HEADER <= valueBytes < U32 && runId < U32 && !c.done
    ensures var c' := Run(Point(k, runId, floor), c, PerValue(Group(k, valueBytes, THROUGHPUT, runId), at));
            && c'.values == c.values + k && c'.thruValues == c.thruValues + k && c'.bad == c.bad && !c'.done
            && c'.messages == c.messages + k && c'.thruMessages == c.thruMessages + k
  {
    var p, g := Point(k, runId, floor), Group(k, valueBytes, THROUGHPUT, runId);
    var ms := PerValue(g, at);
    GroupItems(k, valueBytes, runId, p);
    forall i | 0 <= i < |ms| ensures OneThru(p, ms[i]) {
      OneRecordMessage(p, ms[i]);
    }
    PerValueStream(p, ms);
    RunTally(p, c, ms);
  }

  // --- The latency of a group -----------------------------------------------------------------

  /** Record `i` of a paced group of the point. */
  ghost predicate PacedRecord(p: Point, it: Item, i: nat) {
    Ours(p, it) && it.bytes[OFF_PHASE] == LATENCY && Field(it.bytes, OFF_INDEX, 2) == i
  }

  /** The items are records `i` up to `i + |s|` of a paced group. */
  ghost predicate PacedFrom(p: Point, s: seq<Item>, i: nat) {
    forall j :: 0 <= j < |s| ==> PacedRecord(p, s[j], i + j)
  }

  /** Where the counter is after the first `i` records of a group stamped `ts`. */
  ghost predicate Underway(p: Point, c0: Counts, c: Counts, i: nat, ts: nat) {
    !c.done && c.samples == c0.samples && (i > 0 ==> c.groupTs == ts)
  }

  /** The group has arrived: one sample, none when it was not stamped, and no stamp left over. */
  ghost predicate Sampled(c0: Counts, c: Counts, ts: nat, now: nat) {
    !c.done && c.groupTs == 0 && c.samples == c0.samples + if ts != 0 then [(now - ts) % U64] else []
  }

  /** One record of the group. */
  lemma PacedStep(p: Point, c0: Counts, w: Progress, it: Item, i: nat, ts: nat, now: nat)
    requires PacedRecord(p, it, i) && i < p.width && Underway(p, c0, w.c, i, ts)
    requires i == 0 ==> Field(it.bytes, OFF_TS, 8) == ts
    ensures var c := Step(p, w, it, now).c;
            if i + 1 < p.width then Underway(p, c0, c, i + 1, ts) else Sampled(c0, c, ts, now)
  {
  }

  /** Records that arrive together: still underway, or sampled when the last one is among them. */
  lemma {:induction false} PacedPart(p: Point, c0: Counts, w: Progress, s: seq<Item>, i: nat, ts: nat, now: nat)
    requires PacedFrom(p, s, i) && i + |s| <= p.width && Underway(p, c0, w.c, i, ts)
    requires i == 0 && s != [] ==> Field(s[0].bytes, OFF_TS, 8) == ts
    ensures var c := Walk(p, w, s, now).c;
            if i + |s| < p.width || s == [] then Underway(p, c0, c, i + |s|, ts) else Sampled(c0, c, ts, now)
    decreases |s|
  {
    if s != [] {
      assert PacedRecord(p, s[0], i + 0);
      PacedStep(p, c0, w, s[0], i, ts, now);
      forall j | 0 <= j < |s[1..]| ensures PacedRecord(p, s[1..][j], i + 1 + j) { assert s[1..][j] == s[j + 1]; }
      if |s| > 1 {
        PacedPart(p, c0, Step(p, w, s[0], now), s[1..], i + 1, ts, now);
      } else {
        assert s[1..] == [];
      }
    }
  }

  lemma PacedSplit(p: Point, a: seq<Item>, b: seq<Item>, i: nat)
    requires PacedFrom(p, a + b, i)
    ensures PacedFrom(p, a, i) && PacedFrom(p, b, i + |a|)
  {
    forall j | 0 <= j < |a| ensures PacedRecord(p, a[j], i + j) { assert (a + b)[j] == a[j]; }
    forall j | 0 <= j < |b| ensures PacedRecord(p, b[j], i + |a| + j) { assert (a + b)[|a| + j] == b[j]; }
  }

  /** The records `rs` are numbers `i` on of a paced group stamped `ts`. */
  ghost predicate GroupPart(p: Point, rs: seq<seq<byte>>, i: nat, ts: nat) {
    && AllFramed(rs) && PacedFrom(p, AsItems(rs), i)
    && (i == 0 && rs != [] ==> |rs[0]| >= HEADER && Field(rs[0], OFF_TS, 8) == ts)
  }

  lemma GroupPartSplit(p: Point, a: seq<seq<byte>>, b: seq<seq<byte>>, i: nat, ts: nat)
    requires GroupPart(p, a + b, i, ts)
    ensures GroupPart(p, a, i, ts) && (i + |a| > 0 ==> GroupPart(p, b, i + |a|, ts))
  {
    FramedParts(a, b);
    AsItemsConcat(a, b);
    AsItemsAt(a);
    PacedSplit(p, AsItems(a), AsItems(b), i);
    assert a != [] ==> (a + b)[0] == a[0];
  }

  /** One message with some records of the group. */
  lemma PacedMessage(p: Point, c0: Counts, c: Counts, rs: seq<seq<byte>>, i: nat, ts: nat, now: nat)
    requires GroupPart(p, rs, i, ts) && i + |rs| <= p.width && Underway(p, c0, c, i, ts)
    ensures var c' := OnMessage(p, c, Concat(rs), now);
            if i + |rs| < p.width || rs == [] then Underway(p, c0, c', i + |rs|, ts) else Sampled(c0, c', ts, now)
  {
    ItemsOfRecords(rs);
    AsItemsAt(rs);
    PacedPart(p, c0, Progress(c, false, false), AsItems(rs), i, ts, now);
  }

  lemma RunCut(p: Point, c: Counts, ps: seq<Piece>)
    requires ps != []
    ensures Run(p, c, Cut(ps, [])) == Run(p, OnMessage(p, c, Concat(ps[0].records), ps[0].at), Cut(ps[1..], []))
  {
    assert Concat(ps[0].records) + [] == Concat(ps[0].records);
    assert Cut(ps, [])[1..] == Cut(ps[1..], []);
  }

  /** The rest of a group, however it is cut; its last record comes with the last piece. */
  lemma {:induction false} PacedRun(p: Point, c0: Counts, c: Counts, ps: seq<Piece>, i: nat, ts: nat)
    requires ps != [] && ps[|ps| - 1].records != [] && Underway(p, c0, c, i, ts)
    requires GroupPart(p, AllRecords(ps), i, ts) && i + |AllRecords(ps)| == p.width
    ensures Sampled(c0, Run(p, c, Cut(ps, [])), ts, ps[|ps| - 1].at)
    decreases |ps|
  {
    var rs, rest := ps[0].records, ps[1..];
    assert AllRecords(ps) == rs + AllRecords(rest);
    GroupPartSplit(p, rs, AllRecords(rest), i, ts);
    PacedMessage(p, c0, c, rs, i, ts, ps[0].at);
    RunCut(p, c, ps);
    if |ps| > 1 {
      LastRecords(rest);
      if rs == [] { assert [] + AllRecords(rest) == AllRecords(rest); }
      PacedRun(p, c0, OnMessage(p, c, Concat(rs), ps[0].at), rest, i + |rs|, ts);
    }
  }

  lemma {:induction false} LastRecords(ps: seq<Piece>)
    requires ps != [] && ps[|ps| - 1].records != []
    ensures AllRecords(ps) != []
  {
    if |ps| > 1 { LastRecords(ps[1..]); }
  }

  /** A paced group as the publisher sends it: stamped in record 0. */
  function StampedGroup(k: nat, valueBytes: nat, runId: nat, ts: nat): (g: seq<seq<byte>>)
    requires k > 0 && valueBytes >= HEADER
    ensures |g| == k
  {
    var g := Group(k, valueBytes, LATENCY, runId);
    g[0 := Stamped(g[0], ts)]
  }

  /** A record of a group, before any stamp. */
  lemma UnstampedRecord(k: nat, valueBytes: nat, i: nat, runId: nat, p: Point)
    requires i < k < U16 && HEADER <= valueBytes < U32 && runId < U32 && p.width == k && p.runId == runId
    ensures var r := RecordBytes(k, valueBytes, i, LATENCY, runId); Framed(r) && PacedRecord(p, Record(r), i)
  {
    RecordFields(k, valueBytes, i, LATENCY, runId);
    FieldsPaced(RecordBytes(k, valueBytes, i, LATENCY, runId), k, i, p);
  }

  lemma FieldsPaced(r: seq<byte>, k: nat, i: nat, p: Point)
    requires HEADER <= |r| < U32 && i < k < U16 && p.width == k && p.runId < U32 && r[OFF_PHASE] == LATENCY
    requires Field(r, OFF_LEN, 4) == |r| % U32 && Field(r, OFF_MAGIC, 2) == MAGIC && Field(r, OFF_INDEX, 2) == i % U16
    requires Field(r, OFF_WIDTH, 2) == k % U16 && Field(r, OFF_RUN, 4) == p.runId % U32
    ensures Framed(r) && PacedRecord(p, Record(r), i)
  {
  }

  lemma StampKeepsRecord(r: seq<byte>, ts: nat, p: Point, i: nat)
    requires Framed(r) && PacedRecord(p, Record(r), i) && ts < U64
    ensures var r' := Stamped(r, ts); Framed(r') && PacedRecord(p, Record(r'), i) && Field(r', OFF_TS, 8) == ts
  {
    StampedFields(r, ts);
  }

  /** The records of a stamped group are framed, the point's, in order, and the first carries the stamp. */
  lemma StampedGroupPaced(k: nat, valueBytes: nat, runId: nat, ts: nat, p: Point)
    requires 1 <= k < U16 && HEADER <= valueBytes < U32 && runId < U32 && ts < U64 && p.width == k && p.runId == runId
    ensures GroupPart(p, StampedGroup(k, valueBytes, runId, ts), 0, ts)
  {
    var g := StampedGroup(k, valueBytes, runId, ts);
    AsItemsAt(g);
    forall i | 0 <= i < k ensures Framed(g[i]) && PacedRecord(p, Record(g[i]), i) {
      UnstampedRecord(k, valueBytes, i, runId, p);
      StampKeepsRecord(RecordBytes(k, valueBytes, i, LATENCY, runId), ts, p, i);
    }
    UnstampedRecord(k, valueBytes, 0, runId, p);
    StampKeepsRecord(RecordBytes(k, valueBytes, 0, LATENCY, runId), ts, p, 0);
  }

  /**
   A stamped group of `k` records gives exactly one sample, however it is cut into messages: the
   arrival of the message with its last record minus the stamp, modulo 2^64. An unstamped one gives
   none, and no stamp is left over.
   */
  lemma PacedGroupSampled(k: nat, valueBytes: nat, runId: nat, floor: nat, ts: nat, c: Counts, ps: seq<Piece>)
    requires 1 <= k < U16 && HEADER <= valueBytes < U32 && runId < U32 && ts < U64 && !c.done
    requires ps != [] && ps[|ps| - 1].records != [] && AllRecords(ps) == StampedGroup(k, valueBytes, runId, ts)
    ensures Sampled(c, Run(Point(k, runId, floor), c, Cut(ps, [])), ts, ps[|ps| - 1].at)
  {
    StampedGroupPaced(k, valueBytes, runId, ts, Point(k, runId, floor));
    PacedRun(Point(k, runId, floor), c, c, ps, 0, ts);
  }

  /** One record a message, the `i`-th at time `at(i)`. */
  function OneEach(g: seq<seq<byte>>, at: nat -> nat, from: nat): (ps: seq<Piece>)
    requires from <= |g|
    ensures |ps| == |g| - from
    decreases |g| - from
  {
    if from == |g| then [] else [Piece([g[from]], at(from))] + OneEach(g, at, from + 1)
  }

  lemma AllRecordsCons(p: Piece, ps: seq<Piece>)
    ensures AllRecords([p] + ps) == p.records + AllRecords(ps)
  {
    assert ([p] + ps)[1..] == ps;
  }

  lemma {:induction false} OneEachRecords(g: seq<seq<byte>>, at: nat -> nat, from: nat)
    requires from <= |g|
    ensures AllRecords(OneEach(g, at, from)) == g[from..]
    decreases |g| - from
  {
    if from < |g| {
      OneEachRecords(g, at, from + 1);
      AllRecordsCons(Piece([g[from]], at(from)), OneEach(g, at, from + 1));
      assert g[from..] == [g[from]] + g[from + 1..];
    }
  }

  lemma {:induction false} OneEachLast(g: seq<seq<byte>>, at: nat -> nat, from: nat)
    requires from < |g|
    ensures OneEach(g, at, from)[|g| - from - 1] == Piece([g[|g| - 1]], at(|g| - 1))
    decreases |g| - from
  {
    if from + 1 < |g| { OneEachLast(g, at, from + 1); }
  }

  lemma CutWhole(g: seq<seq<byte>>, now: nat)
    ensures AllRecords([Piece(g, now)]) == g && Cut([Piece(g, now)], []) == [Message(Concat(g), now)]
  {
    var whole := [Piece(g, now)];
    assert AllRecords(whole[1..]) == [] && g + [] == g;
    assert Cut(whole, []) == [Message(Concat(g) + [], now)] && Concat(g) + [] == Concat(g);
  }

  /** So the per-value arm is timed at its last record, and the whole group at its one message. */
  lemma PacedBothWays(k: nat, valueBytes: nat, runId: nat, floor: nat, ts: nat, c: Counts, at: nat -> nat, now: nat)
    requires 1 <= k < U16 && HEADER <= valueBytes < U32 && runId < U32 && ts < U64 && !c.done
    ensures var p, g := Point(k, runId, floor), StampedGroup(k, valueBytes, runId, ts);
            && Sampled(c, Run(p, c, [Message(Concat(g), now)]), ts, now)
            && Sampled(c, Run(p, c, Cut(OneEach(g, at, 0), [])), ts, at(k - 1))
  {
    var g := StampedGroup(k, valueBytes, runId, ts);
    CutWhole(g, now);
    PacedGroupSampled(k, valueBytes, runId, floor, ts, c, [Piece(g, now)]);
    OneEachRecords(g, at, 0);
    OneEachLast(g, at, 0);
    assert g[0..] == g;
    PacedGroupSampled(k, valueBytes, runId, floor, ts, c, OneEach(g, at, 0));
  }
}
