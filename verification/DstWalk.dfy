/**
 The cached forward walker over a `dst`'s NAME segments, against the naive walk from the start.
 The walker remembers the first `slots` segments; an ask behind the walk but past the cache backs
 up to the end of the last cached segment's body.
 */
module DstWalk {
  import opened ByteOrder
  import opened Options
  import opened Tlv

  /** A segment: the offset and the length of its name bytes. */
  datatype Seg = Seg(off: nat, len: nat)

  /** A header as the grammar shapes it: its body follows it, and a trailer is never one byte. */
  predicate Shaped(h: Header, pos: nat) {
    && (h.headerLen == 4 || h.headerLen == 6) && h.bodyOff == pos + h.headerLen
    && h.Trailer() >= 0 && h.Trailer() != 1
  }

  /** The window a walk covers, read through a cursor, and how many segments it may remember. */
  datatype Dst = Dst(read: nat -> Option<Header>, body: nat, end: nat, slots: nat)

  /** The cursor over the bytes of `frame`. */
  function FrameCursor(frame: seq<byte>): nat -> Option<Header> {
    (pos: nat) => ReadHeader(frame, pos)
  }

  ghost predicate Grammatical(d: Dst) {
    forall pos: nat :: d.read(pos).Some? ==> Shaped(d.read(pos).value, pos)
  }

  // --- The naive walk -----------------------------------------------------------------------

  /** The NAME header at `pos`, if the window has one there. */
  function NameAt(d: Dst, pos: nat): Option<Header> {
    if pos >= d.end then None
    else
      var h := d.read(pos);
      if h.None? || h.value.kind != NAME then None else h
  }

  /** The header of segment `i`, counting from `pos`, by walking every header in between. */
  function Naive(d: Dst, pos: nat, i: nat): Option<Header>
    decreases i
  {
    var h := NameAt(d, pos);
    if i == 0 || h.None? then h else Naive(d, pos + h.value.total, i - 1)
  }

  function SegOf(h: Option<Header>): Option<Seg> {
    if h.None? then None else Some(Seg(h.value.bodyOff, h.value.bodyLen))
  }

  /** What a caller is promised for segment `i`. */
  function Answer(d: Dst, i: nat): Option<Seg> {
    SegOf(Naive(d, d.body, i))
  }

  /** Where segment `k`'s header starts, counting from `pos`, if all before it exist. */
  function StartFrom(d: Dst, pos: nat, k: nat): nat
    decreases k
  {
    if k == 0 || NameAt(d, pos).None? then pos else StartFrom(d, pos + NameAt(d, pos).value.total, k - 1)
  }

  /** Once a segment is missing, so is every later one. */
  lemma {:induction false} NaiveStops(d: Dst, pos: nat, k: nat, i: nat)
    requires k <= i && Naive(d, pos, k).None?
    ensures Naive(d, pos, i).None?
    decreases k
  {
    if k > 0 && NameAt(d, pos).Some? {
      NaiveStops(d, pos + NameAt(d, pos).value.total, k - 1, i - 1);
    }
  }

  /** Segment `k` is the NAME at its start position, and the next one starts `total` bytes on. */
  lemma {:induction false} NaiveAtStart(d: Dst, pos: nat, k: nat)
    requires k == 0 || Naive(d, pos, k - 1).Some?
    ensures Naive(d, pos, k) == NameAt(d, StartFrom(d, pos, k))
    ensures Naive(d, pos, k).Some? ==>
              StartFrom(d, pos, k + 1) == StartFrom(d, pos, k) + Naive(d, pos, k).value.total
    decreases k
  {
    if k > 0 {
      NaiveAtStart(d, pos + NameAt(d, pos).value.total, k - 1);
    }
  }

  // --- The cached walker --------------------------------------------------------------------

  /** The walker's state: next position, segments walked, remembered segments, last one read. */
  datatype Walk = Walk(pos: nat, have: nat, cache: seq<Seg>, last: Seg)

  function Start(d: Dst): Walk {
    Walk(d.body, 0, [], Seg(0, 0))
  }

  function Take(d: Dst, s: Walk, h: Header): Walk {
    var seg := Seg(h.bodyOff, h.bodyLen);
    Walk(s.pos + h.total, s.have + 1, if s.have < d.slots then s.cache + [seg] else s.cache, seg)
  }

  /** Fill the cache from where the walk stands. */
  function Prefill(d: Dst, s: Walk): Walk
    decreases d.slots - |s.cache|
  {
    var h := NameAt(d, s.pos);
    if |s.cache| >= d.slots || h.None? then s
    else
      var seg := Seg(h.value.bodyOff, h.value.bodyLen);
      Prefill(d, Walk(s.pos + h.value.total, s.have + 1, s.cache + [seg], seg))
  }

  /** Walk forward until segment `i` is the last one read. */
  function Forward(d: Dst, s: Walk, i: nat): (Walk, Option<Seg>)
    decreases i + 1 - s.have
  {
    if s.have > i then (s, Some(s.last))
    else
      var h := NameAt(d, s.pos);
      if h.None? then (s, None) else Forward(d, Take(d, s, h.value), i)
  }

  /** The state an ask for uncached segment `i` walks on from. */
  function BackUp(d: Dst, s: Walk, i: nat): Walk {
    if i >= s.have then s
    else
      var k := |s.cache|;
      s.(have := k, pos := if k == 0 then d.body else s.cache[k - 1].off + s.cache[k - 1].len)
  }

  function At(d: Dst, s: Walk, i: nat): (Walk, Option<Seg>) {
    if i < |s.cache| then (s, Some(s.cache[i])) else Forward(d, BackUp(d, s, i), i)
  }

  // --- Agreement ------------------------------------------------------------------------------

  /**
   The window the walker is right on: it can never back up over a trailer. Either nothing is
   cached, or no segment lies past the cache, or the last cached NAME carries no trailer.
   */
  predicate BackUpSafe(d: Dst) {
    || d.slots == 0
    || Naive(d, d.body, d.slots).None?
    || (Naive(d, d.body, d.slots - 1).Some? && Naive(d, d.body, d.slots - 1).value.Trailer() == 0)
  }

  /** The walk stands at the start of segment `have` and remembers the first ones correctly. */
  ghost predicate Ok(d: Dst, s: Walk) {
    && |s.cache| == (if s.have < d.slots then s.have else d.slots)
    && s.pos == StartFrom(d, d.body, s.have)
    && (s.have > 0 ==> Naive(d, d.body, s.have - 1).Some?)
    && (forall k :: 0 <= k < |s.cache| ==> Some(s.cache[k]) == Answer(d, k))
  }

  lemma TakeOk(d: Dst, s: Walk)
    requires Ok(d, s) && NameAt(d, s.pos).Some?
    ensures Ok(d, Take(d, s, NameAt(d, s.pos).value))
    ensures Some(Take(d, s, NameAt(d, s.pos).value).last) == Answer(d, s.have)
  {
    NaiveAtStart(d, d.body, s.have);
  }

  lemma {:induction false} PrefillOk(d: Dst, s: Walk)
    requires Ok(d, s)
    ensures Ok(d, Prefill(d, s))
    decreases d.slots - |s.cache|
  {
    var h := NameAt(d, s.pos);
    if |s.cache| < d.slots && h.Some? {
      TakeOk(d, s);
      PrefillOk(d, Take(d, s, h.value));
    }
  }

  lemma {:induction false} ForwardOk(d: Dst, s: Walk, i: nat)
    requires Ok(d, s) && (s.have <= i || (s.have == i + 1 && Some(s.last) == Answer(d, i)))
    ensures Ok(d, Forward(d, s, i).0)
    ensures Forward(d, s, i).1 == Answer(d, i)
    ensures Answer(d, i).Some? ==> Forward(d, s, i).0.have == i + 1
    decreases i + 1 - s.have
  {
    if s.have <= i {
      NaiveAtStart(d, d.body, s.have);
      if NameAt(d, s.pos).Some? {
        TakeOk(d, s);
        ForwardOk(d, Take(d, s, NameAt(d, s.pos).value), i);
      } else {
        NaiveStops(d, d.body, s.have, i);
      }
    }
  }

  /** Backing up over an untrailered NAME lands on the start of the next one. */
  lemma BackUpOk(d: Dst, s: Walk, i: nat)
    requires BackUpSafe(d) && Grammatical(d) && Ok(d, s) && i >= |s.cache|
    ensures Ok(d, BackUp(d, s, i)) && BackUp(d, s, i).have <= i
  {
    if i < s.have && d.slots > 0 {
      if Naive(d, d.body, d.slots).None? {
        NaiveStops(d, d.body, d.slots, s.have - 1);
      }
      CachedEnd(d, s);
    }
  }

  /** The last cached segment's body ends a trailer's length before the next segment. */
  lemma CachedEnd(d: Dst, s: Walk)
    requires Grammatical(d) && Ok(d, s) && 0 < d.slots < s.have
    ensures var h := Naive(d, d.body, d.slots - 1);
            && h.Some? && s.cache[d.slots - 1] == Seg(h.value.bodyOff, h.value.bodyLen)
            && h.value.bodyOff + h.value.bodyLen + h.value.Trailer() == StartFrom(d, d.body, d.slots)
            && h.value.Trailer() >= 0 && h.value.Trailer() != 1
  {
    var k := d.slots - 1;
    if Naive(d, d.body, k).None? {
      NaiveStops(d, d.body, k, s.have - 1);
    } else if k > 0 && Naive(d, d.body, k - 1).None? {
      NaiveStops(d, d.body, k - 1, k);
    }
    assert Some(s.cache[k]) == Answer(d, k);
    NaiveAtStart(d, d.body, k);
    assert d.read(StartFrom(d, d.body, k)).Some?;
  }

  /** One ask on a safe window gives the naive answer, whatever was asked before. */
  lemma AtOk(d: Dst, s: Walk, i: nat)
    requires BackUpSafe(d) && Grammatical(d) && Ok(d, s)
    ensures Ok(d, At(d, s, i).0) && At(d, s, i).1 == Answer(d, i)
  {
    if i >= |s.cache| {
      BackUpOk(d, s, i);
      ForwardOk(d, BackUp(d, s, i), i);
    }
  }

  /** One call on the walker. */
  datatype Call = DoPrefill | Ask(i: nat)

  /** Every ask of the sequence is answered as the naive walk would. */
  ghost predicate Agrees(d: Dst, s: Walk, calls: seq<Call>)
    decreases |calls|
  {
    calls == [] ||
    match calls[0]
    case DoPrefill => Agrees(d, Prefill(d, s), calls[1..])
    case Ask(i) => At(d, s, i).1 == Answer(d, i) && Agrees(d, At(d, s, i).0, calls[1..])
  }

  lemma {:induction false} SafeAgrees(d: Dst, s: Walk, calls: seq<Call>)
    requires BackUpSafe(d) && Grammatical(d) && Ok(d, s)
    ensures Agrees(d, s, calls)
    decreases |calls|
  {
    if calls != [] {
      match calls[0]
      case DoPrefill =>
        PrefillOk(d, s);
        SafeAgrees(d, Prefill(d, s), calls[1..]);
      case Ask(i) =>
        AtOk(d, s, i);
        SafeAgrees(d, At(d, s, i).0, calls[1..]);
    }
  }

  /** A header read `t` bytes early never names the segment that starts `t` bytes later. */
  predicate NoAlias(read: nat -> Option<Header>, q: nat, t: nat) {
    var a, b := read(q), read(q + t);
    a.Some? && b.Some? && b.value.kind == NAME ==> SegOf(a) != SegOf(b)
  }

  /** What a header that was read says of the bytes. */
  lemma HeaderBytes(frame: seq<byte>, pos: nat)
    requires ReadHeader(frame, pos).Some?
    ensures var h := ReadHeader(frame, pos).value;
            && pos + h.headerLen <= |frame| && h.kind == frame[pos]
            && h.bodyLen == LeValue(frame[pos + 2..pos + h.headerLen])
  {
  }

  /** A wide length field read two bytes early holds the NAME's own type, option and length bytes. */
  lemma EarlyLengthDiffers(frame: seq<byte>, q: nat)
    requires q + 6 <= |frame| && frame[q + 2] == NAME
    ensures LeValue(frame[q + 2..q + 6]) != LeValue(frame[q + 4..q + 6])
  {
    LeFour(frame[q + 2..q + 6]);
    LeTwo(frame[q + 4..q + 6]);
  }

  lemma EarlyReadDiffers(frame: seq<byte>, q: nat, t: nat)
    requires t >= 2
    ensures NoAlias(FrameCursor(frame), q, t)
  {
    var x, y := ReadHeader(frame, q), ReadHeader(frame, q + t);
    if x.Some? && y.Some? && y.value.kind == NAME && x.value.bodyOff == y.value.bodyOff {
      HeaderBytes(frame, q);
      HeaderBytes(frame, q + t);
      assert x.value.headerLen == 6 && y.value.headerLen == 4 && t == 2;
      EarlyLengthDiffers(frame, q);
    }
  }

  lemma LeTwo(s: seq<byte>)
    requires |s| == 2
    ensures LeValue(s) == s[0] as int + 256 * (s[1] as int)
  {
    assert LeValue(s[1..]) == s[1] + 256 * LeValue(s[1..][1..]);
  }

  lemma LeFour(s: seq<byte>)
    requires |s| == 4
    ensures LeValue(s) == s[0] as int + 256 * (s[1] as int) + 0x1_0000 * (s[2] as int) + 0x100_0000 * (s[3] as int)
  {
    LeTwo(s[2..]);
    assert s[1..][1..] == s[2..];
    assert LeValue(s[1..]) == s[1] + 256 * LeValue(s[2..]);
  }

  /** The walk backed up over the trailer before segment `slots` and read on from inside it. */
  lemma BackedUpDisagrees(d: Dst, s: Walk)
    requires !BackUpSafe(d) && Grammatical(d) && Ok(d, s) && s.have == d.slots + 1
    requires forall q: nat, t: nat :: t >= 2 ==> NoAlias(d.read, q, t)
    ensures At(d, s, d.slots).1 != Answer(d, d.slots)
  {
    var i := d.slots;
    CachedEnd(d, s);
    NaiveAtStart(d, d.body, i);
    var back, t := BackUp(d, s, i), Naive(d, d.body, i - 1).value.Trailer();
    assert back.pos + t == StartFrom(d, d.body, i) && back.have == i;
    assert NoAlias(d.read, back.pos, t);
    var h := NameAt(d, back.pos);
    if h.Some? {
      var next := Take(d, back, h.value);
      assert Forward(d, back, i) == Forward(d, next, i) == (next, Some(next.last));
    }
  }

  /** On an unsafe window, asking for the first uncached segment twice gets a wrong second answer. */
  lemma UnsafeDisagrees(d: Dst)
    requires !BackUpSafe(d) && Grammatical(d)
    requires forall q: nat, t: nat :: t >= 2 ==> NoAlias(d.read, q, t)
    ensures !Agrees(d, Start(d), [Ask(d.slots), Ask(d.slots)])
  {
    var i := d.slots;
    var s1 := At(d, Start(d), i).0;
    ForwardOk(d, Start(d), i);
    BackedUpDisagrees(d, s1);
    assert [Ask(i), Ask(i)][1..] == [Ask(i)];
    assert !Agrees(d, s1, [Ask(i)]);
  }

  lemma FrameUnsafeDisagrees(frame: seq<byte>, d: Dst)
    requires d.read == FrameCursor(frame) && !BackUpSafe(d)
    ensures !Agrees(d, Start(d), [Ask(d.slots), Ask(d.slots)])
  {
    forall q: nat, t: nat | t >= 2 ensures NoAlias(d.read, q, t) {
      EarlyReadDiffers(frame, q, t);
    }
    UnsafeDisagrees(d);
  }

  /**
   Over the bytes of any frame, the walker agrees with the naive walk on every sequence of calls
   exactly on safe windows.
   */
  lemma AgreesIffSafe(frame: seq<byte>, body: nat, end: nat, slots: nat)
    ensures var d := Dst(FrameCursor(frame), body, end, slots);
            (forall calls :: Agrees(d, Start(d), calls)) <==> BackUpSafe(d)
  {
    var d := Dst(FrameCursor(frame), body, end, slots);
    if BackUpSafe(d) {
      forall calls ensures Agrees(d, Start(d), calls) {
        SafeAgrees(d, Start(d), calls);
      }
    } else {
      FrameUnsafeDisagrees(frame, d);
    }
  }

  /** Three empty NAMEs, the second with a CRC-16 trailer. */
  function TrailedFrame(c0: byte, c1: byte): seq<byte> {
    [NAME, 0, 0, 0, NAME, 0x14, 0, 0, c0, c1, NAME, 0, 0, 0]
  }

  /** An empty NAME with option byte `o`, read where it stands. */
  lemma EmptyNameHeader(f: seq<byte>, pos: nat, o: byte)
    requires pos + 4 + TrailerLen(DecodeOpt(o)) <= |f| && !ReservedSet(o) && !DecodeOpt(o).ll
    requires f[pos] == NAME && f[pos + 1] == o && f[pos + 2] == 0 && f[pos + 3] == 0
    ensures ReadHeader(f, pos) == Some(Header(NAME, DecodeOpt(o), 4, pos + 4, 0, 4 + TrailerLen(DecodeOpt(o))))
  {
    assert f[pos + 2..pos + 4] == [0, 0];
    LeTwo([0, 0]);
  }

  lemma TrailedFrameOpts()
    ensures !ReservedSet(0) && DecodeOpt(0) == PLAIN
    ensures !ReservedSet(0x14) && DecodeOpt(0x14) == PLAIN.(cr := true, cw := true)
  {
  }

  lemma TrailedFrameHeaders(c0: byte, c1: byte)
    ensures var f := TrailedFrame(c0, c1);
            && ReadHeader(f, 0) == Some(Header(NAME, PLAIN, 4, 4, 0, 4))
            && ReadHeader(f, 4) == Some(Header(NAME, PLAIN.(cr := true, cw := true), 4, 8, 0, 6))
            && ReadHeader(f, 10) == Some(Header(NAME, PLAIN, 4, 14, 0, 4))
  {
    TrailedFrameOpts();
    var f := TrailedFrame(c0, c1);
    EmptyNameHeader(f, 0, 0);
    EmptyNameHeader(f, 4, 0x14);
    EmptyNameHeader(f, 10, 0);
  }

  lemma ThreeNamesUnsafe(d: Dst)
    requires d.body == 0 && d.end == 14 && d.slots == 2
    requires d.read(0) == Some(Header(NAME, PLAIN, 4, 4, 0, 4))
    requires d.read(4) == Some(Header(NAME, PLAIN.(cr := true, cw := true), 4, 8, 0, 6))
    requires d.read(10) == Some(Header(NAME, PLAIN, 4, 14, 0, 4))
    ensures !BackUpSafe(d) && Answer(d, 2) == Some(Seg(14, 0))
  {
    assert Naive(d, 10, 0).Some? && Naive(d, 4, 0).Some? && Naive(d, 4, 1) == Naive(d, 10, 0);
    assert Naive(d, 0, 1) == Naive(d, 4, 0) && Naive(d, 0, 2) == Naive(d, 4, 1);
  }

  /** An unsafe window: with two slots, the repeated ask for the third NAME goes wrong. */
  lemma TrailerBreaksTheWalk(c0: byte, c1: byte)
    ensures var d := Dst(FrameCursor(TrailedFrame(c0, c1)), 0, 14, 2);
            Answer(d, 2) == Some(Seg(14, 0)) && !Agrees(d, Start(d), [Ask(2), Ask(2)])
  {
    TrailedFrameHeaders(c0, c1);
    ThreeNamesUnsafe(Dst(FrameCursor(TrailedFrame(c0, c1)), 0, 14, 2));
    FrameUnsafeDisagrees(TrailedFrame(c0, c1), Dst(FrameCursor(TrailedFrame(c0, c1)), 0, 14, 2));
  }

  // --- The walker as the object it is -------------------------------------------------------

  class DstSegWalk {
    const read: nat -> Option<Header>
    const bodyOff: nat
    const end: nat
    const cache: array<Seg>
    var pos: nat
    var have: nat
    var cached: nat
    var last: Seg

    ghost function Window(): Dst {
      Dst(read, bodyOff, end, cache.Length)
    }

    ghost predicate Valid()
      reads this
    {
      cached == if have < cache.Length then have else cache.Length
    }

    ghost function View(): Walk
      requires Valid()
      reads this, cache
    {
      Walk(pos, have, cache[..cached], last)
    }

    constructor (read: nat -> Option<Header>, bodyOff: nat, end: nat, slots: nat)
      ensures Valid() && fresh(cache)
      ensures Window() == Dst(read, bodyOff, end, slots) && View() == Start(Window())
    {
      this.read, this.bodyOff, this.end, pos := read, bodyOff, end, bodyOff;
      have, cached, last := 0, 0, Seg(0, 0);
      cache := new Seg[slots](_ => Seg(0, 0));
    }

    /** Fill the inline cache now, in one loop. */
    method PrefillCache()
      requires Valid()
      modifies this, cache
      ensures Valid() && View() == Prefill(Window(), old(View()))
    {
      ghost var goal := Prefill(Window(), View());
      while cached < cache.Length && pos < end
        invariant Valid() && goal == Prefill(Window(), View())
        decreases cache.Length - cached
      {
        var h := read(pos);
        if h.None? || h.value.kind != NAME { return; }
        assert NameAt(Window(), pos) == h;
        ghost var before := View();
        last := Seg(h.value.bodyOff, h.value.bodyLen);
        cache[cached] := last;
        cached := cached + 1;
        pos := pos + h.value.total;
        have := have + 1;
        assert View() == Walk(before.pos + h.value.total, before.have + 1, before.cache + [last], last);
      }
    }

    /** Segment `i`'s place in the frame: from the cache, or by walking. */
    method SegmentAt(i: nat) returns (r: Option<Seg>)
      requires Valid()
      modifies this, cache
      ensures Valid() && (View(), r) == At(Window(), old(View()), i)
    {
      if i < cached { return Some(cache[i]); }
      r := WalkTo(i);
    }

    /** The uncached half of an ask: back up when the walk is past segment `i`, then walk. */
    method WalkTo(i: nat) returns (r: Option<Seg>)
      requires Valid() && i >= cached
      modifies this, cache
      ensures Valid() && (View(), r) == Forward(Window(), BackUp(Window(), old(View()), i), i)
    {
      if i < have {
        have := cached;
        pos := if cached == 0 then bodyOff else cache[cached - 1].off + cache[cached - 1].len;
      }
      r := WalkForward(i);
    }

    /** Walk forward until segment `i` is in hand. */
    method WalkForward(i: nat) returns (r: Option<Seg>)
      requires Valid()
      modifies this, cache
      ensures Valid() && (View(), r) == Forward(Window(), old(View()), i)
    {
      ghost var goal := Forward(Window(), View(), i);
      while have <= i
        invariant Valid() && goal == Forward(Window(), View(), i)
        decreases i + 1 - have
      {
        if pos >= end { return None; }
        var h := read(pos);
        if h.None? || h.value.kind != NAME { return None; }
        assert NameAt(Window(), pos) == h;
        TakeSegment(h.value);
      }
      return Some(last);
    }

    method TakeSegment(h: Header)
      requires Valid()
      modifies this, cache
      ensures Valid() && View() == Take(Window(), old(View()), h)
    {
      last := Seg(h.bodyOff, h.bodyLen);
      if have < cache.Length {
        cache[cached] := last;
        cached := cached + 1;
      }
      pos := pos + h.total;
      have := have + 1;
    }
  }
}
