/** The TLV header grammar of the forward plane, and the emitter of untrailered TLVs. */
module Tlv {
  import opened ByteOrder
  import opened Options

  const VALUE: byte := 0x01
  const NAME: byte := 0x02
  const PATH: byte := 0x06
  const FWD: byte := 0x0F
  const PATH_REF: byte := 0x14
  const PATH_REF_ELEMENT: nat := 8
  const MAX_PATH_REF_BODY: nat := 2040

  /** The decoded `opt` byte. */
  datatype Opt = Opt(pl: bool, ts: bool, cr: bool, ll: bool, cw: bool, tf: bool)

  const PLAIN: Opt := Opt(false, false, false, false, false, false)

  /** Bits 7 and 0 are reserved. */
  predicate ReservedSet(b: byte) {
    (b as bv8) & 0x81 != 0
  }

  function DecodeOpt(b: byte): Opt {
    var v := b as bv8;
    Opt(v & 0x40 != 0, v & 0x20 != 0, v & 0x10 != 0, v & 0x08 != 0, v & 0x04 != 0, v & 0x02 != 0)
  }

  function EncodeOpt(o: Opt): byte {
    (if o.pl then 64 else 0) + (if o.ts then 32 else 0) + (if o.cr then 16 else 0) +
    (if o.ll then 8 else 0) + (if o.cw then 4 else 0) + (if o.tf then 2 else 0)
  }

  /** The option bytes an emitter writes: only the structure and the length-width bits. */
  lemma EmitOptRoundTrip(pl: bool, ll: bool)
    ensures var o := PLAIN.(pl := pl, ll := ll); !ReservedSet(EncodeOpt(o)) && DecodeOpt(EncodeOpt(o)) == o
  {
    if pl {
      assert ll ==> EncodeOpt(PLAIN.(pl := pl, ll := ll)) == 72;
    } else {
      assert ll ==> EncodeOpt(PLAIN.(pl := pl, ll := ll)) == 8;
    }
  }

  /** A header read at an absolute offset of a frame. */
  datatype Header = Header(kind: byte, opt: Opt, headerLen: nat, bodyOff: nat, bodyLen: nat, total: nat)
  {
    /** Trailer bytes: what follows the body inside the TLV. */
    function Trailer(): int {
      total - headerLen - bodyLen
    }
  }

  function TrailerLen(o: Opt): nat {
    (if o.ts then (if o.tf then 4 else 8) else 0) + (if o.cr then (if o.cw then 2 else 4) else 0)
  }

  predicate PathRefBodyValid(o: Opt, bodyLen: nat) {
    !o.pl && !o.ll && bodyLen % PATH_REF_ELEMENT == 0 && bodyLen <= MAX_PATH_REF_BODY
  }

  /** Read one header at `pos`, its CRC deferred; `None` when the grammar rejects it there. */
  function ReadHeader(frame: seq<byte>, pos: nat): (r: Option<Header>)
    ensures r.Some? ==>
      && r.value.bodyOff == pos + r.value.headerLen && (r.value.headerLen == 4 || r.value.headerLen == 6)
      && r.value.Trailer() >= 0 && r.value.Trailer() != 1 && pos + r.value.total <= |frame|
  {
    if pos > |frame| || |frame| - pos < 4 then None
    else if frame[pos] == 0 || ReservedSet(frame[pos + 1]) then None
    else
      var o := DecodeOpt(frame[pos + 1]);
      var h := if o.ll then 6 else 4;
      if |frame| - pos < h then None
      else
        var length := LeValue(frame[pos + 2..pos + h]);
        if frame[pos] == PATH_REF && !PathRefBodyValid(o, length) then None
        else if |frame| - pos < h + length + TrailerLen(o) then None
        else Some(Header(frame[pos], o, h, pos + h, length, h + length + TrailerLen(o)))
  }

  /** The bytes of an untrailered TLV; the length field widens when the body needs it. */
  function Emit(kind: byte, pl: bool, body: seq<byte>): seq<byte> {
    var ll := |body| > 0xFFFF;
    [kind, EncodeOpt(PLAIN.(pl := pl, ll := ll))] + LeBytes(|body|, if ll then 4 else 2) + body
  }

  /** Where the body of an emitted TLV starts. */
  function EmitHeaderLen(body: seq<byte>): nat {
    if |body| > 0xFFFF then 6 else 4
  }

  /** `frame` holds the bytes `s` at `pos`. */
  ghost predicate HasAt(frame: seq<byte>, pos: nat, s: seq<byte>) {
    pos + |s| <= |frame| && frame[pos..pos + |s|] == s
  }

  lemma HasAtSplit(frame: seq<byte>, pos: nat, a: seq<byte>, b: seq<byte>)
    requires HasAt(frame, pos, a + b)
    ensures HasAt(frame, pos, a) && HasAt(frame, pos + |a|, b)
  {
    var w := frame[pos..pos + |a + b|];
    assert frame[pos..pos + |a|] == w[..|a|] == a;
    assert frame[pos + |a|..pos + |a| + |b|] == w[|a|..] == b;
  }

  /** The header an emitted TLV reads back as at `pos`: its kind, its body and no trailer. */
  function EmittedAs(pos: nat, kind: byte, pl: bool, body: seq<byte>): Header {
    var h := EmitHeaderLen(body);
    Header(kind, PLAIN.(pl := pl, ll := |body| > 0xFFFF), h, pos + h, |body|, h + |body|)
  }

  /** An emitted TLV holds its body right after its header. */
  lemma EmittedBody(frame: seq<byte>, pos: nat, kind: byte, pl: bool, body: seq<byte>)
    requires HasAt(frame, pos, Emit(kind, pl, body))
    ensures |Emit(kind, pl, body)| == EmitHeaderLen(body) + |body|
    ensures HasAt(frame, pos + EmitHeaderLen(body), body)
  {
    var o := EncodeOpt(PLAIN.(pl := pl, ll := |body| > 0xFFFF));
    var head := [kind, o] + LeBytes(|body|, EmitHeaderLen(body) - 2);
    assert Emit(kind, pl, body) == head + body;
    HasAtSplit(frame, pos, head, body);
  }

  /** Reading an emitted TLV anywhere inside a frame. */
  lemma EmittedHeader(frame: seq<byte>, pos: nat, kind: byte, pl: bool, body: seq<byte>)
    requires kind != 0 && kind != PATH_REF && |body| < U32
    requires HasAt(frame, pos, Emit(kind, pl, body))
    ensures ReadHeader(frame, pos) == Some(EmittedAs(pos, kind, pl, body))
  {
    var o, n := EncodeOpt(PLAIN.(pl := pl, ll := |body| > 0xFFFF)), EmitHeaderLen(body) - 2;
    var len := LeBytes(|body|, n);
    assert Emit(kind, pl, body) == ([kind, o] + len) + body;
    HasAtSplit(frame, pos, [kind, o] + len, body);
    HasAtSplit(frame, pos, [kind, o], len);
    assert frame[pos] == frame[pos..pos + 2][0] && frame[pos + 1] == frame[pos..pos + 2][1];
    EmitOptRoundTrip(pl, |body| > 0xFFFF);
    LeRoundTrip(|body|, n);
    Pow256Values();
  }
}
