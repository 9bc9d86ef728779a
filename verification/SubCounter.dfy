/**
 The receiver-side counter of the composition bench. `Counter` is the object that walks each
 message; the reference is the stream of records the messages hold, wherever messages are cut.
 */
module SubCounter {
  import opened ByteOrder
  import opened ComposeRecord

  /** The point being measured: width, nonce, sample floor. */
  datatype Point = Point(width: nat, runId: nat, minThruMessages: nat)

  /** What a message holds at one walk position: a whole record, or a length that cannot be one. */
  datatype Item = Record(bytes: seq<byte>) | Broken

  /** The length field of the record at the head of `d`, if it can be one. */
  predicate WholeRecord(d: seq<byte>) {
    |d| >= HEADER && HEADER <= Field(d, OFF_LEN, 4) <= |d|
  }

  /** The items of a message. A tail shorter than a header is not an item. */
  function Items(d: seq<byte>): seq<Item>
    decreases |d|
  {
    if |d| < HEADER then []
    else if !WholeRecord(d) then [Broken]
    else
      var len := Field(d, OFF_LEN, 4);
      [Record(d[..len])] + Items(d[len..])
  }

  /** The record carries this harness's magic, this point's width and this run's nonce. */
  predicate Ours(p: Point, it: Item) {
    && it.Record? && |it.bytes| >= HEADER
    && Field(it.bytes, OFF_MAGIC, 2) == MAGIC && Field(it.bytes, OFF_WIDTH, 2) == p.width
    && Field(it.bytes, OFF_RUN, 4) == p.runId
  }

  predicate IsEnd(p: Point, it: Item) {
    Ours(p, it) && it.bytes[OFF_PHASE] == END_OF_POINT
  }

  predicate IsThru(p: Point, it: Item) {
    Ours(p, it) && it.bytes[OFF_PHASE] == THROUGHPUT
  }

  // --- The reference: tallies of a record stream -------------------------------------------

  predicate HasEnd(p: Point, s: seq<Item>) {
    s != [] && (IsEnd(p, s[0]) || HasEnd(p, s[1..]))
  }

  /** The items before the first end-of-point record: all of them when there is none. */
  function Before(p: Point, s: seq<Item>): seq<Item> {
    if s == [] || IsEnd(p, s[0]) then [] else [s[0]] + Before(p, s[1..])
  }

  /** Records of this point before its end: what `values` should read. */
  function Values(p: Point, s: seq<Item>): nat {
    if s == [] || IsEnd(p, s[0]) then 0 else (if Ours(p, s[0]) then 1 else 0) + Values(p, s[1..])
  }

  /** Throughput records among them. */
  function ThruValues(p: Point, s: seq<Item>): nat {
    if s == [] || IsEnd(p, s[0]) then 0 else (if IsThru(p, s[0]) then 1 else 0) + ThruValues(p, s[1..])
  }

  /** Foreign records and broken lengths before the end: what `bad` should read. */
  function Bad(p: Point, s: seq<Item>): nat {
    if s == [] || IsEnd(p, s[0]) then 0 else (if Ours(p, s[0]) then 0 else 1) + Bad(p, s[1..])
  }

  // --- The counter --------------------------------------------------------------------------

  datatype Counts = Counts(messages: nat, values: nat, bad: nat, thruMessages: nat, thruValues: nat,
                           thruFirst: nat, thruLast: nat, done: bool, groupTs: nat, samples: seq<nat>)

  const ZERO: Counts := Counts(0, 0, 0, 0, 0, 0, 0, false, 0, [])

  /** Take the group's latency when its last record lands; the difference wraps at 64 bits. */
  function ObserveLatency(p: Point, c: Counts, r: seq<byte>, now: nat): Counts
    requires |r| >= HEADER
  {
    var idx := Field(r, OFF_INDEX, 2);
    var ts := if idx == 0 then Field(r, OFF_TS, 8) else c.groupTs;
    if idx + 1 == p.width && ts != 0 then c.(samples := c.samples + [(now - ts) % U64], groupTs := 0)
    else c.(groupTs := ts)
  }

  /** The walk of one message: the counts, and whether this message has been counted already. */
  datatype Progress = Progress(c: Counts, counted: bool, countedThru: bool)

  /** One accepted record. */
  function Accept(p: Point, w: Progress, r: seq<byte>, now: nat): Progress
    requires |r| >= HEADER
  {
    var c := w.c.(messages := w.c.messages + (if w.counted then 0 else 1), values := w.c.values + 1);
    if r[OFF_PHASE] == THROUGHPUT then
      Progress(c.(thruFirst := if c.thruValues == 0 then now else c.thruFirst, thruLast := now,
                  thruValues := c.thruValues + 1,
                  thruMessages := c.thruMessages + (if w.countedThru then 0 else 1)), true, true)
    else Progress(ObserveLatency(p, c, r, now), true, w.countedThru)
  }

  function Step(p: Point, w: Progress, it: Item, now: nat): Progress {
    if !Ours(p, it) then w.(c := w.c.(bad := w.c.bad + 1))
    else if IsEnd(p, it) then w.(c := w.c.(done := true))
    else Accept(p, w, it.bytes, now)
  }

  /** The walk over the items of one message, up to the end-of-point record. */
  function Walk(p: Point, w: Progress, s: seq<Item>, now: nat): Progress
    decreases |s|
  {
    if s == [] || w.c.done then w else Walk(p, Step(p, w, s[0], now), s[1..], now)
  }

  function OnMessage(p: Point, c: Counts, d: seq<byte>, now: nat): Counts {
    Walk(p, Progress(c, false, false), Items(d), now).c
  }

  lemma WalkCons(p: Point, w: Progress, it: Item, rest: seq<Item>, now: nat)
    requires !w.c.done
    ensures Walk(p, w, [it] + rest, now) == Walk(p, Step(p, w, it, now), rest, now)
  {
    assert ([it] + rest)[1..] == rest;
  }

  /** The items from a walk position on. */
  lemma ItemsFrom(d: seq<byte>, off: nat)
    requires off + HEADER <= |d|
    ensures var len := Field(d[off..], OFF_LEN, 4);
            if len < HEADER || off + len > |d| then Items(d[off..]) == [Broken]
            else
              Items(d[off..]) == [Record(d[off..off + len])] + Items(d[off + len..])
  {
    var len := Field(d[off..], OFF_LEN, 4);
    if HEADER <= len <= |d| - off {
      assert d[off..][..len] == d[off..off + len] && d[off..][len..] == d[off + len..];
    }
  }

  /** The rest of a message's walk, from position `off` on. */
  ghost function WalkFrom(p: Point, w: Progress, d: seq<byte>, off: nat, now: nat): Progress
    requires off <= |d|
  {
    Walk(p, w, Items(d[off..]), now)
  }

  lemma WalkStart(p: Point, c: Counts, d: seq<byte>, now: nat)
    ensures WalkFrom(p, Progress(c, false, false), d, 0, now).c == OnMessage(p, c, d, now)
  {
    assert d[0..] == d;
  }

  lemma WalkEnds(p: Point, w: Progress, d: seq<byte>, off: nat, now: nat)
    requires off <= |d| && (off + HEADER > |d| || w.c.done)
    ensures WalkFrom(p, w, d, off, now) == w
  {
  }

  /** What the walk does at a position with room for a header. */
  lemma WalkAt(p: Point, w: Progress, d: seq<byte>, off: nat, now: nat)
    requires off + HEADER <= |d| && !w.c.done
    ensures var len := Field(d[off..], OFF_LEN, 4);
            WalkFrom(p, w, d, off, now) ==
            if len < HEADER || off + len > |d| then Step(p, w, Broken, now)
            else WalkFrom(p, Step(p, w, Record(d[off..off + len]), now), d, off + len, now)
  {
    ItemsFrom(d, off);
    var len := Field(d[off..], OFF_LEN, 4);
    if len < HEADER || off + len > |d| {
      WalkCons(p, w, Broken, [], now);
      assert [Broken] + [] == [Broken];
    } else {
      WalkCons(p, w, Record(d[off..off + len]), Items(d[off + len..]), now);
    }
  }

  class Counter {
    const point: Point
    var messages: nat
    var values: nat
    var bad: nat
    var thruMessages: nat
    var thruValues: nat
    var thruFirst: nat
    var thruLast: nat
    var done: bool
    var groupTs: nat
    var samples: seq<nat>

    ghost function View(): Counts
      reads this
    {
      Counts(messages, values, bad, thruMessages, thruValues, thruFirst, thruLast, done, groupTs, samples)
    }

    constructor (point: Point)
      ensures this.point == point && View() == ZERO
    {
      this.point := point;
      messages, values, bad, thruMessages, thruValues, thruFirst, thruLast := 0, 0, 0, 0, 0, 0, 0;
      done, groupTs, samples := false, 0, [];
    }

    /** Feed one received message at time `now`; false once the end of the point has been seen. */
    method Receive(d: seq<byte>, now: nat) returns (more: bool)
      modifies this
      ensures View() == OnMessage(point, old(View()), d, now)
      ensures more == !done
    {
      if done { return false; }
      var off := 0;
      var counted, countedThru := false, false;
      ghost var goal := WalkFrom(point, Progress(View(), false, false), d, 0, now);
      WalkStart(point, View(), d, now);
      while off + HEADER <= |d| && !done
        invariant off <= |d|
        invariant goal == WalkFrom(point, Progress(View(), counted, countedThru), d, off, now)
        decreases |d| - off
      {
        var whole;
        off, counted, countedThru, whole := WalkOne(d, off, now, counted, countedThru);
        if !whole { return true; }
      }
      WalkEnds(point, Progress(View(), counted, countedThru), d, off, now);
      return !done;
    }

    /** One turn of the walk; not `whole` when the record at `off` is cut off or its length is no length. */
    method WalkOne(d: seq<byte>, off: nat, now: nat, counted: bool, countedThru: bool)
      returns (off': nat, counted': bool, countedThru': bool, whole: bool)
      requires off + HEADER <= |d| && !done
      modifies this
      ensures off < off' <= |d| && (!whole ==> !done)
      ensures var w := Progress(View(), counted', countedThru');
              WalkFrom(point, Progress(old(View()), counted, countedThru), d, off, now) ==
              if whole then WalkFrom(point, w, d, off', now) else w
    {
      WalkAt(point, Progress(View(), counted, countedThru), d, off, now);
      var len := GetLe(d[off..], OFF_LEN, 4);
      if len < HEADER || off + len > |d| {
        bad := bad + 1;
        return |d|, counted, countedThru, false;
      }
      counted', countedThru' := Examine(d[off..off + len], now, counted, countedThru);
      return off + len, counted', countedThru', true;
    }

    /** One whole record: count it malformed, end the point, or accept it. */
    method Examine(r: seq<byte>, now: nat, counted: bool, countedThru: bool) returns (counted': bool, countedThru': bool)
      requires |r| >= HEADER
      modifies this
      ensures Progress(View(), counted', countedThru')
           == Step(point, Progress(old(View()), counted, countedThru), Record(r), now)
    {
      counted', countedThru' := counted, countedThru;
      var ours := Matches(r);
      if !ours {
        bad := bad + 1;
      } else if r[OFF_PHASE] == END_OF_POINT {
        done := true;
      } else {
        counted', countedThru' := Tally(r, now, counted, countedThru);
      }
    }

    /** Framing, swept width and the run's nonce. */
    method Matches(r: seq<byte>) returns (ours: bool)
      requires |r| >= HEADER
      ensures ours == Ours(point, Record(r))
    {
      var magic := GetLe(r, OFF_MAGIC, 2);
      var width := GetLe(r, OFF_WIDTH, 2);
      var run := GetLe(r, OFF_RUN, 4);
      ours := magic == MAGIC && width == point.width && run == point.runId;
    }

    /** Count an accepted record, and its message once. */
    method Tally(r: seq<byte>, now: nat, counted: bool, countedThru: bool) returns (counted': bool, countedThru': bool)
      requires |r| >= HEADER
      modifies this
      ensures Progress(View(), counted', countedThru')
           == Accept(point, Progress(old(View()), counted, countedThru), r, now)
    {
      counted', countedThru' := true, countedThru;
      if !counted { messages := messages + 1; }
      values := values + 1;
      if r[OFF_PHASE] == THROUGHPUT {
        if thruValues == 0 { thruFirst := now; }
        thruLast := now;
        thruValues := thruValues + 1;
        if !countedThru { thruMessages := thruMessages + 1; }
        countedThru' := true;
      } else {
        ObserveGroup(r, now);
      }
    }

    /** Time a whole group: its stamp rides record 0, the sample is taken at its last record. */
    method ObserveGroup(r: seq<byte>, now: nat)
      requires |r| >= HEADER
      modifies this
      ensures View() == ObserveLatency(point, old(View()), r, now)
    {
      var idx := GetLe(r, OFF_INDEX, 2);
      var ts := GetLe(r, OFF_TS, 8);
      if idx == 0 { groupTs := ts; }
      if idx + 1 == point.width && groupTs != 0 {
        samples := samples + [(now - groupTs) % U64];
        groupTs := 0;
      }
    }

    /** The exit status: 0 when a row may be published. */
    method Finish() returns (status: int)
      ensures status == 0 <==> Publishable(point, View())
      ensures status == 0 || status == 1
    {
      if values == 0 || thruValues == 0 || thruLast <= thruFirst || bad != 0 ||
         thruMessages < point.minThruMessages
      {
        return 1;
      }
      return 0;
    }

    /** The audit pass's exit status: 0 when clean deliveries were observed. */
    method FinishAudit() returns (status: int)
      ensures status == 0 <==> values > 0 && bad == 0
      ensures status == 0 || status == 1
    {
      return if values > 0 && bad == 0 then 0 else 1;
    }
  }

  /** The counter's own publication rule. */
  predicate Publishable(p: Point, c: Counts) {
    && c.values > 0 && c.thruValues > 0 && c.thruLast > c.thruFirst && c.bad == 0
    && c.thruMessages >= p.minThruMessages
  }
}
