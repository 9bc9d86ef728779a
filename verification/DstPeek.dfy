/**
 The retired `dst` gate over a FWD frame, the literal spelling of a path as NAME children, and the
 round trip through both and the cached walker.
 */
module DstPeek {
  import opened ByteOrder
  import opened Options
  import opened Tlv
  import opened DstWalk

  /** What a peek learns about a FWD frame. */
  datatype Pre = Pre(fwdOpt: Opt, bodyEnd: nat, opPos: nat, opTotal: nat, opBodyOff: nat, opBodyLen: nat,
                     dstBodyOff: nat, dstEnd: nat, afterDst: nat, seg0: Seg, stripAt: nat)

  datatype Peek = Rejected | CanonicalPath(pre: Pre) | Retired(pre: Pre, refCount: nat)

  /** The gate, over any cursor. */
  function PeekFwdDst(read: nat -> Option<Header>): Peek {
    var fwd := read(0);
    if fwd.None? || fwd.value.kind != FWD || !fwd.value.opt.pl then Rejected
    else
      var f := fwd.value;
      var bodyEnd := f.bodyOff + f.bodyLen;
      var op := read(f.bodyOff);
      if op.None? || op.value.kind != VALUE then Rejected
      else
        var dstPos := f.bodyOff + op.value.total;
        if dstPos >= bodyEnd then Rejected
        else
          var dst := read(dstPos);
          if dst.None? then Rejected else PeekPath(read, f, op.value, dstPos, dst.value)
  }

  /** The second half of the gate: the `dst` header has been read at `dstPos`. */
  function PeekPath(read: nat -> Option<Header>, f: Header, op: Header, dstPos: nat, dst: Header): Peek {
    var dstEnd := dst.bodyOff + dst.bodyLen;
    var pre := Pre(f.opt, f.bodyOff + f.bodyLen, f.bodyOff, op.total, op.bodyOff, op.bodyLen,
                   dst.bodyOff, dstEnd, dstPos + dst.total, Seg(0, 0), dst.bodyOff);
    if dst.kind == PATH_REF then
      if !PathRefBodyValid(dst.opt, dst.bodyLen) then Rejected
      else
        var strip := dst.bodyOff + PATH_REF_ELEMENT;
        Retired(pre.(stripAt := if strip > dstEnd then dstEnd else strip), dst.bodyLen / PATH_REF_ELEMENT)
    else if dst.kind != PATH || dst.bodyLen == 0 then Rejected
    else
      var seg := read(dst.bodyOff);
      if seg.None? || seg.value.kind != NAME then Rejected
      else CanonicalPath(pre.(seg0 := Seg(seg.value.bodyOff, seg.value.bodyLen)))
  }

  /** The window a walk of the peeked `dst` covers. */
  function WindowOf(read: nat -> Option<Header>, pre: Pre, slots: nat): Dst {
    Dst(read, pre.dstBodyOff, pre.dstEnd, slots)
  }

  /** Whenever the gate answers PATH, the walker's first segment is the one the gate read. */
  lemma PeekedSegmentZero(read: nat -> Option<Header>, slots: nat)
    requires PeekFwdDst(read).CanonicalPath?
    ensures var pre := PeekFwdDst(read).pre;
            var d := WindowOf(read, pre, slots);
            Answer(d, 0) == Some(pre.seg0) && At(d, Start(d), 0).1 == Some(pre.seg0)
  {
    var d := WindowOf(read, PeekFwdDst(read).pre, slots);
    ForwardOk(d, Start(d), 0);
  }

  // --- The literal spelling -----------------------------------------------------------------

  /** The body of a literal PATH: one NAME TLV a segment. */
  function NameBody(segs: seq<seq<byte>>): seq<byte> {
    if segs == [] then [] else Emit(NAME, false, segs[0]) + NameBody(segs[1..])
  }

  function PathLiteral(segs: seq<seq<byte>>): seq<byte> {
    Emit(PATH, true, NameBody(segs))
  }

  /** The body of a literal frame. */
  function FwdBody(op: byte, dst: seq<seq<byte>>, src: seq<seq<byte>>, payload: seq<byte>): seq<byte> {
    Emit(VALUE, false, [op]) + PathLiteral(dst) + (PathLiteral(src) + Emit(VALUE, false, payload))
  }

  /** FWD{ op, dst, src, VALUE }, with both paths spelled literally. */
  function LiteralFwd(op: byte, dst: seq<seq<byte>>, src: seq<seq<byte>>, payload: seq<byte>): seq<byte> {
    Emit(FWD, true, FwdBody(op, dst, src, payload))
  }

  // What a cursor sees of a literal frame, header by header.

  /** How many bytes an emitted TLV takes. */
  function TlvLen(body: seq<byte>): nat {
    EmitHeaderLen(body) + |body|
  }

  /** The cursor reads the NAMEs of `segs` one after the other from `pos` to `end`. */
  ghost predicate SeesNames(read: nat -> Option<Header>, pos: nat, end: nat, segs: seq<seq<byte>>)
    decreases |segs|
  {
    if segs == [] then pos == end
    else
      && pos < end && read(pos) == Some(EmittedAs(pos, NAME, false, segs[0]))
      && SeesNames(read, pos + TlvLen(segs[0]), end, segs[1..])
  }

  /** Where the bytes of segment `i` lie, counting from `pos`. */
  function NamePlace(pos: nat, segs: seq<seq<byte>>, i: nat): nat
    requires i < |segs|
    decreases i
  {
    if i == 0 then pos + EmitHeaderLen(segs[0]) else NamePlace(pos + TlvLen(segs[0]), segs[1..], i - 1)
  }

  /** The emitted NAMEs of `segs` lie one after the other from `pos`. */
  ghost predicate NamesLaid(frame: seq<byte>, pos: nat, segs: seq<seq<byte>>)
    decreases |segs|
  {
    segs == [] ||
    (HasAt(frame, pos, Emit(NAME, false, segs[0])) && NamesLaid(frame, pos + TlvLen(segs[0]), segs[1..]))
  }

  function NamesLen(segs: seq<seq<byte>>): nat {
    if segs == [] then 0 else TlvLen(segs[0]) + NamesLen(segs[1..])
  }

  lemma {:induction false} NameBodyLaid(frame: seq<byte>, pos: nat, segs: seq<seq<byte>>)
    requires HasAt(frame, pos, NameBody(segs))
    ensures NamesLaid(frame, pos, segs) && NamesLen(segs) == |NameBody(segs)|
    decreases |segs|
  {
    if segs != [] {
      HasAtSplit(frame, pos, Emit(NAME, false, segs[0]), NameBody(segs[1..]));
      EmittedBody(frame, pos, NAME, false, segs[0]);
      NameBodyLaid(frame, pos + TlvLen(segs[0]), segs[1..]);
    }
  }

  /** Each segment's bytes lie at its place. */
  lemma {:induction false} NameBytes(frame: seq<byte>, pos: nat, segs: seq<seq<byte>>, i: nat)
    requires NamesLaid(frame, pos, segs) && i < |segs|
    ensures HasAt(frame, NamePlace(pos, segs, i), segs[i])
    decreases i
  {
    if i == 0 {
      EmittedBody(frame, pos, NAME, false, segs[0]);
    } else {
      NameBytes(frame, pos + TlvLen(segs[0]), segs[1..], i - 1);
    }
  }

  /** A laid NAME is read as such. */
  lemma LaidNameSeen(frame: seq<byte>, pos: nat, seg: seq<byte>)
    requires HasAt(frame, pos, Emit(NAME, false, seg)) && TlvLen(seg) < U32
    ensures FrameCursor(frame)(pos) == Some(EmittedAs(pos, NAME, false, seg)) && TlvLen(seg) > 0
  {
    EmittedHeader(frame, pos, NAME, false, seg);
  }

  lemma SeesNext(read: nat -> Option<Header>, pos: nat, end: nat, segs: seq<seq<byte>>)
    requires segs != [] && pos < end && read(pos) == Some(EmittedAs(pos, NAME, false, segs[0]))
    requires SeesNames(read, pos + TlvLen(segs[0]), end, segs[1..])
    ensures SeesNames(read, pos, end, segs)
  {
  }

  /** The laid NAMEs are read as such. */
  lemma {:induction false} LaidNamesSeen(frame: seq<byte>, read: nat -> Option<Header>, pos: nat, end: nat, segs: seq<seq<byte>>)
    requires read == FrameCursor(frame) && NamesLaid(frame, pos, segs) && NamesLen(segs) < U32 && end == pos + NamesLen(segs)
    ensures SeesNames(read, pos, end, segs)
    decreases |segs|
  {
    if segs != [] {
      LaidNameSeen(frame, pos, segs[0]);
      LaidNamesSeen(frame, read, pos + TlvLen(segs[0]), end, segs[1..]);
      SeesNext(read, pos, end, segs);
    }
  }

  /** Over the NAMEs it sees, the naive walk finds exactly the segments, each untrailered. */
  lemma {:induction false} NaiveOverNames(d: Dst, pos: nat, segs: seq<seq<byte>>, i: nat)
    requires SeesNames(d.read, pos, d.end, segs)
    ensures i >= |segs| ==> Naive(d, pos, i).None?
    ensures i < |segs| ==>
              && Naive(d, pos, i).Some? && Naive(d, pos, i).value.Trailer() == 0
              && SegOf(Naive(d, pos, i)) == Some(Seg(NamePlace(pos, segs, i), |segs[i]|))
    decreases i
  {
    if segs != [] && i > 0 {
      NaiveOverNames(d, pos + TlvLen(segs[0]), segs[1..], i - 1);
    }
  }

  /** What the gate needs of a frame to answer PATH. */
  ghost predicate SeesFwd(read: nat -> Option<Header>, body: seq<byte>, op: byte, dst: seq<seq<byte>>) {
    var h := EmitHeaderLen(body);
    var q := h + TlvLen([op]);
    && read(0) == Some(EmittedAs(0, FWD, true, body)) && q < h + |body|
    && read(h) == Some(EmittedAs(h, VALUE, false, [op]))
    && read(q) == Some(EmittedAs(q, PATH, true, NameBody(dst)))
  }

  lemma SeenFwdPeeks(read: nat -> Option<Header>, body: seq<byte>, op: byte, dst: seq<seq<byte>>)
    requires SeesFwd(read, body, op, dst)
    requires var q := EmitHeaderLen(body) + TlvLen([op]) + EmitHeaderLen(NameBody(dst));
             SeesNames(read, q, q + |NameBody(dst)|, dst)
    ensures if dst == [] then PeekFwdDst(read).Rejected?
            else
              && PeekFwdDst(read).CanonicalPath?
              && var q := EmitHeaderLen(body) + TlvLen([op]) + EmitHeaderLen(NameBody(dst));
                 PeekFwdDst(read).pre.dstBodyOff == q && PeekFwdDst(read).pre.dstEnd == q + |NameBody(dst)|
  {
  }

  /** Where the parts of a literal frame lie. */
  lemma LiteralLayout(frame: seq<byte>, body: seq<byte>, op: byte, dst: seq<seq<byte>>, rest: seq<byte>)
    requires frame == Emit(FWD, true, body) && body == Emit(VALUE, false, [op]) + PathLiteral(dst) + rest
    ensures HasAt(frame, 0, Emit(FWD, true, body))
    ensures var h := EmitHeaderLen(body);
            var q := h + TlvLen([op]);
            && HasAt(frame, h, Emit(VALUE, false, [op]))
            && HasAt(frame, q, PathLiteral(dst)) && q < h + |body| <= |frame|
            && HasAt(frame, q + EmitHeaderLen(NameBody(dst)), NameBody(dst))
  {
    var o, p, h := Emit(VALUE, false, [op]), PathLiteral(dst), EmitHeaderLen(body);
    assert frame[0..|frame|] == frame;
    EmittedBody(frame, 0, FWD, true, body);
    HasAtSplit(frame, h, o + p, rest);
    HasAtSplit(frame, h, o, p);
    EmittedBody(frame, h, VALUE, false, [op]);
    EmittedBody(frame, h + |o|, PATH, true, NameBody(dst));
  }

  /** A literal frame is read as its parts. */
  lemma LiteralSeen(frame: seq<byte>, body: seq<byte>, op: byte, dst: seq<seq<byte>>)
    requires |body| < U32 && |NameBody(dst)| < U32
    requires HasAt(frame, 0, Emit(FWD, true, body))
    requires HasAt(frame, EmitHeaderLen(body), Emit(VALUE, false, [op]))
    requires HasAt(frame, EmitHeaderLen(body) + TlvLen([op]), PathLiteral(dst))
    requires TlvLen([op]) < |body|
    ensures SeesFwd(FrameCursor(frame), body, op, dst)
  {
    EmittedHeader(frame, 0, FWD, true, body);
    EmittedHeader(frame, EmitHeaderLen(body), VALUE, false, [op]);
    EmittedHeader(frame, EmitHeaderLen(body) + TlvLen([op]), PATH, true, NameBody(dst));
  }

  /** What is promised of a literal frame, over the cursor that reads it. */
  ghost predicate RoundTrips(frame: seq<byte>, read: nat -> Option<Header>, dst: seq<seq<byte>>, slots: nat,
                             calls: seq<Call>)
  {
    var peek := PeekFwdDst(read);
    if dst == [] then peek.Rejected?
    else
      && peek.CanonicalPath?
      && var d := WindowOf(read, peek.pre, slots);
         && Agrees(d, Start(d), calls)
         && (forall i: nat :: i >= |dst| ==> Answer(d, i).None?)
         && (forall i: nat :: i < |dst| ==>
               Answer(d, i).Some? && HasAt(frame, Answer(d, i).value.off, dst[i])
               && Answer(d, i).value.len == |dst[i]|)
  }

  /**
   The round trip: for every literal frame, the gate answers PATH exactly when there is a segment,
   and then the cached walker, at any cache size and after any sequence of calls, gives each
   segment's own bytes and no further segment.
   */
  lemma LiteralRoundTrip(op: byte, dst: seq<seq<byte>>, src: seq<seq<byte>>, payload: seq<byte>,
                         slots: nat, calls: seq<Call>)
    requires |LiteralFwd(op, dst, src, payload)| < U32
    ensures var frame := LiteralFwd(op, dst, src, payload);
            RoundTrips(frame, FrameCursor(frame), dst, slots, calls)
  {
    LiteralParts(op, dst, src, payload);
    PartsRoundTrip(LiteralFwd(op, dst, src, payload), FwdBody(op, dst, src, payload), op, dst, slots, calls);
  }

  lemma PartsRoundTrip(frame: seq<byte>, body: seq<byte>, op: byte, dst: seq<seq<byte>>, slots: nat, calls: seq<Call>)
    requires SeesFwd(FrameCursor(frame), body, op, dst) && |NameBody(dst)| < U32
    requires HasAt(frame, EmitHeaderLen(body) + TlvLen([op]) + EmitHeaderLen(NameBody(dst)), NameBody(dst))
    ensures RoundTrips(frame, FrameCursor(frame), dst, slots, calls)
  {
    var q := EmitHeaderLen(body) + TlvLen([op]) + EmitHeaderLen(NameBody(dst));
    NamesParts(frame, q, dst);
    CursorGrammatical(frame, q, q + |NameBody(dst)|, slots);
    SeenRoundTrips(frame, FrameCursor(frame), body, op, dst, slots, calls);
  }

  lemma LiteralParts(op: byte, dst: seq<seq<byte>>, src: seq<seq<byte>>, payload: seq<byte>)
    requires |LiteralFwd(op, dst, src, payload)| < U32
    ensures var frame, body := LiteralFwd(op, dst, src, payload), FwdBody(op, dst, src, payload);
            && SeesFwd(FrameCursor(frame), body, op, dst)
            && HasAt(frame, EmitHeaderLen(body) + TlvLen([op]) + EmitHeaderLen(NameBody(dst)), NameBody(dst))
            && |NameBody(dst)| < U32
  {
    var frame, body := LiteralFwd(op, dst, src, payload), FwdBody(op, dst, src, payload);
    LiteralLayout(frame, body, op, dst, PathLiteral(src) + Emit(VALUE, false, payload));
    LiteralSeen(frame, body, op, dst);
  }

  lemma NamesParts(frame: seq<byte>, q: nat, dst: seq<seq<byte>>)
    requires HasAt(frame, q, NameBody(dst)) && |NameBody(dst)| < U32
    ensures SeesNames(FrameCursor(frame), q, q + |NameBody(dst)|, dst)
    ensures forall i: nat :: i < |dst| ==> HasAt(frame, NamePlace(q, dst, i), dst[i])
  {
    NameBodyLaid(frame, q, dst);
    LaidParts(frame, FrameCursor(frame), q, q + |NameBody(dst)|, dst);
  }

  lemma LaidParts(frame: seq<byte>, read: nat -> Option<Header>, q: nat, end: nat, dst: seq<seq<byte>>)
    requires read == FrameCursor(frame) && NamesLaid(frame, q, dst) && NamesLen(dst) < U32 && end == q + NamesLen(dst)
    ensures SeesNames(read, q, end, dst)
    ensures forall i: nat :: i < |dst| ==> HasAt(frame, NamePlace(q, dst, i), dst[i])
  {
    LaidNamesSeen(frame, read, q, end, dst);
    forall i: nat | i < |dst| ensures HasAt(frame, NamePlace(q, dst, i), dst[i]) {
      NameBytes(frame, q, dst, i);
    }
  }

  lemma CursorGrammatical(frame: seq<byte>, body: nat, end: nat, slots: nat)
    ensures Grammatical(Dst(FrameCursor(frame), body, end, slots))
  {
  }

  lemma SeenRoundTrips(frame: seq<byte>, read: nat -> Option<Header>, body: seq<byte>, op: byte,
                       dst: seq<seq<byte>>, slots: nat, calls: seq<Call>)
    requires SeesFwd(read, body, op, dst)
    requires var q := EmitHeaderLen(body) + TlvLen([op]) + EmitHeaderLen(NameBody(dst));
             && SeesNames(read, q, q + |NameBody(dst)|, dst)
             && (forall i: nat :: i < |dst| ==> HasAt(frame, NamePlace(q, dst, i), dst[i]))
             && Grammatical(Dst(read, q, q + |NameBody(dst)|, slots))
    ensures RoundTrips(frame, read, dst, slots, calls)
  {
    SeenFwdPeeks(read, body, op, dst);
    if dst != [] {
      SeenNamesAnswer(WindowOf(read, PeekFwdDst(read).pre, slots), dst, calls);
    }
  }

  /** A window of seen NAMEs is safe, so every ask is answered with the segment's place. */
  lemma SeenNamesAnswer(d: Dst, segs: seq<seq<byte>>, calls: seq<Call>)
    requires Grammatical(d) && SeesNames(d.read, d.body, d.end, segs)
    ensures Agrees(d, Start(d), calls)
    ensures forall i: nat :: i >= |segs| ==> Answer(d, i).None?
    ensures forall i: nat :: i < |segs| ==> Answer(d, i) == Some(Seg(NamePlace(d.body, segs, i), |segs[i]|))
  {
    forall i: nat
      ensures i >= |segs| ==> Naive(d, d.body, i).None?
      ensures i < |segs| ==> Answer(d, i) == Some(Seg(NamePlace(d.body, segs, i), |segs[i]|))
    {
      NaiveOverNames(d, d.body, segs, i);
    }
    if 0 < d.slots {
      NaiveOverNames(d, d.body, segs, d.slots);
      NaiveOverNames(d, d.body, segs, d.slots - 1);
    }
    SafeAgrees(d, Start(d), calls);
  }
}
