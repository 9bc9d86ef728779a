/**
 * Frames on a stream socket that may take any part of a write: length-prefixed records, and masked
 * binary WebSocket frames, with the decoders of the other end.
 */
module FrameSend {
  import opened ByteOrder
  import opened Options
  import opened Powers

  // --- Big-endian -------------------------------------------------------------------------------

  /** The low `n` bytes of `v`, most significant byte first. */
  function BeBytes(v: nat, n: nat): (r: seq<byte>)
    ensures |r| == n
  {
    if n == 0 then [] else BeBytes(v / 256, n - 1) + [v % 256]
  }

  function BeValue(s: seq<byte>): nat {
    if s == [] then 0 else 256 * BeValue(s[..|s| - 1]) + s[|s| - 1]
  }

  lemma {:induction false} BeRoundTrip(v: nat, n: nat)
    requires v < Pow256(n)
    ensures BeValue(BeBytes(v, n)) == v
  {
    if n > 0 {
      BeRoundTrip(v / 256, n - 1);
      assert BeBytes(v, n)[..n - 1] == BeBytes(v / 256, n - 1);
    }
  }

  // --- What goes on the wire --------------------------------------------------------------------

  function Zeros(n: nat): (z: seq<byte>)
    ensures |z| == n && forall i :: 0 <= i < n ==> z[i] == 0
  {
    seq(n, _ => 0)
  }

  /** The bytes a caller asks to send: the first `len` of its data, or zeros. */
  function Body(data: Option<seq<byte>>, len: nat): seq<byte>
    requires data.Some? ==> len <= |data.value|
  {
    if data.Some? then data.value[..len] else Zeros(len)
  }

  datatype Kind = Tcp | Ws

  /** FIN and the binary opcode, the mask bit and the length in its shortest form, a key of zeros. */
  function WsHeader(len: nat): seq<byte> {
    var key := Zeros(4);
    if len < 126 then [0x82, 0x80 + len] + key
    else if len <= 0xFFFF then [0x82, 0x80 + 126] + BeBytes(len, 2) + key
    else [0x82, 0x80 + 127] + BeBytes(len, 8) + key
  }

  function Header(kind: Kind, len: nat): seq<byte> {
    if kind.Tcp? then LeBytes(len, 4) else WsHeader(len)
  }

  function Frame(kind: Kind, body: seq<byte>): seq<byte> {
    Header(kind, |body|) + body
  }

  // --- The socket -------------------------------------------------------------------------------

  /** What sends `from` to `to`, not included, take when each is offered at least that much. */
  function Taken(takes: nat -> int, from: nat, to: nat): int
    requires from <= to
  {
    if from == to then 0 else Taken(takes, from, to - 1) + takes(to - 1)
  }

  ghost predicate AllTook(takes: nat -> int, from: nat, to: nat) {
    forall i: nat :: from <= i < to ==> takes(i) > 0
  }

  /**
   * A write made sends `from` to `to` and put `n` bytes on the wire. It is `ok` exactly when every one
   * of them took something; when not, the last took nothing and is the only one.
   */
  ghost predicate Sent(takes: nat -> int, from: nat, to: nat, ok: bool, n: int) {
    && from <= to && (ok <==> AllTook(takes, from, to))
    && (!ok ==> from < to && takes(to - 1) <= 0 && AllTook(takes, from, to - 1))
    && n <= Taken(takes, from, if ok then to else to - 1)
  }

  lemma {:induction false} TakenSum(takes: nat -> int, a: nat, b: nat, c: nat)
    requires a <= b <= c
    ensures Taken(takes, a, c) == Taken(takes, a, b) + Taken(takes, b, c)
    decreases c
  {
    if b < c { TakenSum(takes, a, b, c - 1); }
  }

  /** A write after one that was ok makes one. */
  lemma SentBoth(takes: nat -> int, a: nat, b: nat, c: nat, ok: bool, m: int, n: int)
    requires Sent(takes, a, b, true, m) && Sent(takes, b, c, ok, n)
    ensures Sent(takes, a, c, ok, m + n)
  {
    TakenSum(takes, a, b, if ok then c else c - 1);
  }

  /** A connected stream socket. The k-th send takes `takes(k)` bytes of what it is offered, or fails. */
  class Socket {
    var sent: seq<byte>
    var calls: nat
    const takes: nat -> int

    constructor (takes: nat -> int)
      ensures sent == [] && calls == 0 && this.takes == takes
    {
      sent, calls := [], 0;
      this.takes := takes;
    }

    method Send(b: seq<byte>) returns (w: int)
      modifies this
      ensures w == (if takes(old(calls)) < |b| then takes(old(calls)) else |b|) && calls == old(calls) + 1
      ensures sent == old(sent) + if w > 0 then b[..w] else []
    {
      w := if takes(calls) < |b| then takes(calls) else |b|;
      calls := calls + 1;
      sent := sent + if w > 0 then b[..w] else [];
    }

    /** Write all of `p`, resuming after every partial write; a failure leaves a proper prefix of it. */
    method WriteAll(p: seq<byte>) returns (ok: bool)
      modifies this
      ensures if ok then sent == old(sent) + p else old(sent) <= sent < old(sent) + p
      ensures Sent(takes, old(calls), calls, ok, |sent| - |old(sent)|)
      ensures calls > old(calls) ==> Taken(takes, old(calls), calls - 1) < |p|
    {
      var at := 0;
      while at < |p|
        invariant at <= |p| && sent == old(sent) + p[..at]
        invariant calls >= old(calls) && AllTook(takes, old(calls), calls) && at <= Taken(takes, old(calls), calls)
        invariant at < |p| ==> at == Taken(takes, old(calls), calls)
        invariant calls > old(calls) ==> Taken(takes, old(calls), calls - 1) < |p|
      {
        var w := Send(p[at..]);
        if w <= 0 { return false; }
        assert p[..at] + p[at..][..w] == p[..at + w];
        at := at + w;
      }
      return true;
    }

    /** Write `len` bytes of the data, or that many zeros from a buffer of 4096. */
    method WriteBody(data: Option<seq<byte>>, len: nat) returns (ok: bool)
      requires data.Some? ==> len <= |data.value|
      modifies this
      ensures if ok then sent == old(sent) + Body(data, len) else old(sent) <= sent < old(sent) + Body(data, len)
      ensures Sent(takes, old(calls), calls, ok, |sent| - |old(sent)|)
    {
      if data.Some? {
        ok := WriteAll(data.value[..len]);
        return;
      }
      var left, zero := len, Zeros(4096);
      while left != 0
        invariant 0 <= left <= len && sent == old(sent) + Zeros(len - left)
        invariant Sent(takes, old(calls), calls, true, len - left)
      {
        var chunk := if left < 4096 then left else 4096;
        ghost var before, put := calls, |sent|;
        ok := WriteAll(zero[..chunk]);
        SentBoth(takes, old(calls), before, calls, ok, len - left, |sent| - put);
        if !ok { return; }
        left := left - chunk;
      }
      return true;
    }

    /** The body of a frame whose header's sends began at `from`, with `put` bytes on the wire before them. */
    method WriteRest(data: Option<seq<byte>>, len: nat, ghost from: nat, ghost put: nat) returns (ok: bool)
      requires (data.Some? ==> len <= |data.value|) && Sent(takes, from, calls, true, |sent| - put)
      modifies this
      ensures if ok then sent == old(sent) + Body(data, len) else old(sent) <= sent < old(sent) + Body(data, len)
      ensures Sent(takes, from, calls, ok, |sent| - put)
    {
      ghost var before, there := calls, |sent|;
      ok := WriteBody(data, len);
      SentBoth(takes, from, before, calls, ok, there - put, |sent| - there);
    }

    method SendTcpFrame(data: Option<seq<byte>>, len: nat) returns (ok: bool)
      requires len < U64 && (data.Some? ==> len <= |data.value|)
      modifies this
      ensures var frame := Frame(Tcp, Body(data, len));
              if ok then sent == old(sent) + frame else old(sent) <= sent < old(sent) + frame
      ensures Sent(takes, old(calls), calls, ok, |sent| - |old(sent)|)
    {
      var pfx := [len % 256, len / 0x100 % 256, len / 0x1_0000 % 256, len / 0x100_0000 % 256];
      LePrefix(len);
      ok := WriteAll(pfx);
      if ok { ok := WriteRest(data, len, old(calls), |old(sent)|); }
    }

    method SendWsFrame(data: Option<seq<byte>>, len: nat) returns (ok: bool)
      requires len < U64 && (data.Some? ==> len <= |data.value|)
      modifies this
      ensures var frame := Frame(Ws, Body(data, len));
              if ok then sent == old(sent) + frame else old(sent) <= sent < old(sent) + frame
      ensures Sent(takes, old(calls), calls, ok, |sent| - |old(sent)|)
    {
      var hdr, h := FillWsHeader(len);
      ok := WriteAll(hdr[..h]);
      if ok { ok := WriteRest(data, len, old(calls), |old(sent)|); }
    }
  }

  lemma LePrefix(len: nat)
    ensures LeBytes(len, 4) == [len % 256, len / 0x100 % 256, len / 0x1_0000 % 256, len / 0x100_0000 % 256]
  {
    Pow256Values();
    forall i | 0 <= i < 4 { LeBytesAt(len, 4, i); }
  }

  /** `v` without its low `i` bytes. */
  function Shifted(v: nat, i: nat): nat {
    if i == 0 then v else Shifted(v, i - 1) / 256
  }

  lemma {:induction false} ShiftedIs(v: nat, i: nat)
    ensures Shifted(v, i) == v / Pow256(i)
  {
    if i > 0 {
      ShiftedIs(v, i - 1);
      DivDiv(v, Pow256(i - 1), 256);
    }
  }

  /** The eight length bytes, from the highest down. */
  method PutLength(hdr: array<byte>, len: nat)
    requires hdr.Length == 14 && len < U64
    modifies hdr
    ensures hdr[..10] == old(hdr[..2]) + BeBytes(len, 8)
  {
    var i, h := 8, 2;
    while i > 0
      invariant 0 <= i <= 8 && h == 10 - i
      invariant hdr[..h] == old(hdr[..2]) + BeBytes(Shifted(len, i), 8 - i)
    {
      i := i - 1;
      ghost var before := hdr[..h];
      hdr[h] := Shifted(len, i) % 256;
      h := h + 1;
      assert hdr[..h] == before + [Shifted(len, i) % 256];
    }
  }

  /** A key of four zeros. */
  method PutKey(hdr: array<byte>, at: nat)
    requires at + 4 <= hdr.Length
    modifies hdr
    ensures hdr[..at + 4] == old(hdr[..at]) + Zeros(4)
  {
    var h := at;
    for k := 0 to 4
      invariant h == at + k && hdr[..h] == old(hdr[..at]) + Zeros(k)
    {
      hdr[h] := 0;
      h := h + 1;
    }
  }

  /** The header in its 14-byte buffer, which always holds it. */
  method FillWsHeader(len: nat) returns (hdr: array<byte>, h: nat)
    requires len < U64
    ensures h <= hdr.Length == 14 && hdr[..h] == WsHeader(len)
  {
    hdr := new byte[14](_ => 0);
    hdr[0] := 0x82;
    h := 2;
    if len < 126 {
      hdr[1] := 0x80 + len;
    } else if len <= 0xFFFF {
      hdr[1], hdr[2], hdr[3] := 0x80 + 126, len / 256 % 256, len % 256;
      h := 4;
      assert BeBytes(len, 2) == [len / 256 % 256, len % 256];
    } else {
      hdr[1] := 0x80 + 127;
      PutLength(hdr, len);
      h := 10;
    }
    assert hdr[..h] + Zeros(4) == WsHeader(len);
    PutKey(hdr, h);
    h := h + 4;
  }

  // --- The other end ----------------------------------------------------------------------------

  /** Section 5.2 of RFC 6455: the fixed bits, the length, the key, and how many bytes they take. */
  datatype WsHead = WsHead(fin: bool, opcode: nat, masked: bool, key: seq<byte>, len: nat, size: nat)

  /** The bytes of an extended payload length. */
  function Extended(len7: nat): nat {
    if len7 == 126 then 2 else if len7 == 127 then 8 else 0
  }

  /** A length must be in its shortest form, and the highest bit of an eight-byte one must be 0. */
  predicate ShortestForm(ext: nat, len: nat) {
    match ext
    case 2 => 126 <= len
    case 8 => 0x1_0000 <= len < 0x8000_0000_0000_0000
    case _ => true
  }

  function DecodeWsHead(s: seq<byte>): Option<WsHead> {
    if |s| < 2 || s[0] / 16 % 8 != 0 then None
    else
      var len7, masked := s[1] % 128, s[1] >= 128;
      var ext := Extended(len7);
      var size := 2 + ext + if masked then 4 else 0;
      if |s| < size then None
      else
        var len := if ext == 0 then len7 else BeValue(s[2..2 + ext]);
        if !ShortestForm(ext, len) then None
        else Some(WsHead(s[0] >= 128, s[0] % 16, masked, s[2 + ext..size], len, size))
  }

  /** The low `n` bits of `a` and `b`, one exclusive-or at a time from the lowest up. */
  function XorBits(a: nat, b: nat, n: nat): (x: nat)
    ensures x < Pow2(n)
  {
    if n == 0 then 0 else (a + b) % 2 + 2 * XorBits(a / 2, b / 2, n - 1)
  }

  function Xor(a: byte, b: byte): byte {
    assert Pow2(4) == 16 && Pow2(8) == 256;
    XorBits(a, b, 8)
  }

  /** Section 5.3: every payload byte is masked with the key byte of its place. */
  function Unmask(p: seq<byte>, key: seq<byte>): seq<byte>
    requires |key| == 4
  {
    seq(|p|, i requires 0 <= i < |p| => Xor(p[i], key[i % 4]))
  }

  /** A final, masked binary frame: its payload, unmasked, and what follows it. */
  function DecodeWs(s: seq<byte>): Option<(seq<byte>, seq<byte>)> {
    match DecodeWsHead(s)
    case None => None
    case Some(h) =>
      if !h.fin || h.opcode != 2 || !h.masked || |s| < h.size + h.len then None
      else Some((Unmask(s[h.size..h.size + h.len], h.key), s[h.size + h.len..]))
  }

  /** A record: as many bytes as the four of its prefix say, and what follows. */
  function DecodeTcp(s: seq<byte>): Option<(seq<byte>, seq<byte>)> {
    if |s| < 4 then None
    else
      var len := LeValue(s[..4]);
      if |s| < 4 + len then None else Some((s[4..4 + len], s[4 + len..]))
  }

  function Decode(kind: Kind, s: seq<byte>): Option<(seq<byte>, seq<byte>)> {
    if kind.Tcp? then DecodeTcp(s) else DecodeWs(s)
  }

  /** The first length that the header cannot say. */
  function Limit(kind: Kind): nat {
    if kind.Tcp? then U32 else 0x8000_0000_0000_0000
  }

  lemma {:induction false} XorBitsZero(a: nat, n: nat)
    requires a < Pow2(n)
    ensures XorBits(a, 0, n) == a
  {
    if n > 0 { XorBitsZero(a / 2, n - 1); }
  }

  lemma XorZero(a: byte)
    ensures Xor(a, 0) == a
  {
    assert Pow2(4) == 16 && Pow2(8) == 256;
    XorBitsZero(a, 8);
  }

  lemma UnmaskZeros(p: seq<byte>)
    ensures Unmask(p, Zeros(4)) == p
  {
    forall i | 0 <= i < |p| ensures Xor(p[i], Zeros(4)[i % 4]) == p[i] {
      XorZero(p[i]);
    }
  }

  /** A header of ours, read by the rules. */
  lemma HeadOf(s: seq<byte>, len7: nat, ext: nat, len: nat)
    requires len7 < 128 && ext == Extended(len7) && |s| >= 6 + ext && s[0] == 0x82 && s[1] == 0x80 + len7
    requires s[2 + ext..6 + ext] == Zeros(4) && (if ext == 0 then len == len7 else BeValue(s[2..2 + ext]) == len)
    ensures DecodeWsHead(s) ==
            if ShortestForm(ext, len) then Some(WsHead(true, 2, true, Zeros(4), len, 6 + ext)) else None
  {
  }

  /** What the header says to the other end, for every length: itself, or nothing valid. */
  lemma WsHeadDecodes(len: nat, rest: seq<byte>)
    requires len < U64
    ensures DecodeWsHead(WsHeader(len) + rest) ==
            if len < Limit(Ws) then Some(WsHead(true, 2, true, Zeros(4), len, |WsHeader(len)|)) else None
  {
    var s := WsHeader(len) + rest;
    if len < 126 {
      assert s[2..6] == Zeros(4);
      HeadOf(s, len, 0, len);
    } else if len <= 0xFFFF {
      Pow256Values();
      BeRoundTrip(len, 2);
      assert s[2..4] == BeBytes(len, 2) && s[4..8] == Zeros(4);
      HeadOf(s, 126, 2, len);
    } else {
      Pow256Values();
      BeRoundTrip(len, 8);
      assert s[2..10] == BeBytes(len, 8) && s[10..14] == Zeros(4);
      HeadOf(s, 127, 8, len);
    }
  }

  lemma TcpRoundTrip(body: seq<byte>, rest: seq<byte>)
    ensures DecodeTcp(Frame(Tcp, body) + rest) == Some((body, rest)) <==> |body| < Limit(Tcp)
  {
    var s, len := Frame(Tcp, body) + rest, |body|;
    Pow256Values();
    LeRoundTrip(len, 4);
    assert s[..4] == LeBytes(len, 4);
    if len < U32 { assert s[4..4 + len] == body && s[4 + len..] == rest; }
  }

  lemma WsRoundTrip(body: seq<byte>, rest: seq<byte>)
    requires |body| < U64
    ensures DecodeWs(Frame(Ws, body) + rest) == Some((body, rest)) <==> |body| < Limit(Ws)
  {
    var h, len := |WsHeader(|body|)|, |body|;
    var s := Frame(Ws, body) + rest;
    WsHeadDecodes(len, body + rest);
    assert s == WsHeader(len) + (body + rest);
    UnmaskZeros(body);
    assert s[h..h + len] == body && s[h + len..] == rest;
  }

  /** The other end reads a frame back, whatever follows it, exactly when its header can say its length. */
  lemma FrameRoundTrip(kind: Kind, body: seq<byte>, rest: seq<byte>)
    requires |body| < U64
    ensures Decode(kind, Frame(kind, body) + rest) == Some((body, rest)) <==> |body| < Limit(kind)
  {
    if kind.Tcp? { TcpRoundTrip(body, rest); } else { WsRoundTrip(body, rest); }
  }

  // --- Whole streams ----------------------------------------------------------------------------

  function Stream(kind: Kind, bodies: seq<seq<byte>>): seq<byte> {
    if bodies == [] then [] else Frame(kind, bodies[0]) + Stream(kind, bodies[1..])
  }

  /** Every body in turn, until the stream ends where a frame does. */
  function DecodeAll(kind: Kind, s: seq<byte>): Option<seq<seq<byte>>>
    decreases |s|
  {
    if s == [] then Some([])
    else
      match Decode(kind, s)
      case None => None
      case Some((body, rest)) =>
        match DecodeAll(kind, rest)
        case None => None
        case Some(more) => Some([body] + more)
  }

  lemma DecodeNext(kind: Kind, s: seq<byte>, body: seq<byte>, rest: seq<byte>, more: seq<seq<byte>>)
    requires Decode(kind, s) == Some((body, rest)) && DecodeAll(kind, rest) == Some(more)
    ensures DecodeAll(kind, s) == Some([body] + more)
  {
    assert s != [];
  }

  /** A stream of frames is read back as exactly their bodies, in order. */
  lemma {:induction false} StreamRoundTrip(kind: Kind, bodies: seq<seq<byte>>)
    requires forall i :: 0 <= i < |bodies| ==> |bodies[i]| < Limit(kind)
    ensures DecodeAll(kind, Stream(kind, bodies)) == Some(bodies)
  {
    if bodies != [] {
      var body, more := bodies[0], bodies[1..];
      var s, rest := Stream(kind, bodies), Stream(kind, more);
      StreamRoundTrip(kind, more);
      FrameRoundTrip(kind, body, rest);
      DecodeNext(kind, s, body, rest, more);
      assert bodies == [body] + more;
    }
  }
}
