/** The value record of the composition bench: its little-endian fields, and the group builder. */
module ComposeRecord {
  import opened ByteOrder

  const MAGIC: nat := 0xC0DE
  const OFF_LEN: nat := 0
  const OFF_MAGIC: nat := 4
  const OFF_WIDTH: nat := 6
  const OFF_INDEX: nat := 8
  const OFF_PHASE: nat := 10
  const OFF_TS: nat := 12
  const OFF_RUN: nat := 20
  const HEADER: nat := 24
  const FILLER: byte := 0xAB

  const LATENCY: byte := 0
  const THROUGHPUT: byte := 1
  const END_OF_POINT: byte := 2

  /** The `n`-byte field at `off`. */
  function Field(r: seq<byte>, off: nat, n: nat): nat
    requires off + n <= |r|
  {
    LeValue(r[off..off + n])
  }

  /** Store `v` little-endian at `off`, byte by byte. */
  method PutLe(b: array<byte>, off: nat, v: nat, n: nat)
    requires off + n <= b.Length
    modifies b
    ensures b[..] == old(b[..off]) + LeBytes(v, n) + old(b[off + n..])
  {
    for i := 0 to n
      invariant b[..off] == old(b[..off]) && b[off + n..] == old(b[off + n..])
      invariant b[off..off + i] == LeBytes(v, n)[..i]
    {
      LeBytesAt(v, n, i);
      b[off + i] := v / Pow256(i) % 256;
      assert b[off..off + i + 1] == b[off..off + i] + [b[off + i]];
    }
    assert b[off..off + n] == LeBytes(v, n);
    assert b[..] == b[..off] + b[off..off + n] + b[off + n..];
  }

  /** Read `n` little-endian bytes at `off`, byte by byte. */
  method GetLe(b: seq<byte>, off: nat, n: nat) returns (v: nat)
    requires off + n <= |b| && n <= 8
    ensures v == Field(b, off, n)
  {
    v := 0;
    for i := 0 to n
      invariant v == LeValue(b[off..off + i])
    {
      LeValueAppend(b[off..off + i], b[off + i]);
      assert b[off..off + i + 1] == b[off..off + i] + [b[off + i]];
      v := v + b[off + i] * Pow256(i);
    }
  }

  /** The header of record `i` of a group of `k`: the framing table, field by field. */
  function HeaderBytes(k: nat, valueBytes: nat, i: nat, phase: byte, runId: nat): (h: seq<byte>)
    ensures |h| == HEADER
  {
    LeBytes(valueBytes, 4) + LeBytes(MAGIC, 2) + LeBytes(k, 2) + LeBytes(i, 2) + [phase, 0] +
    LeBytes(0, 8) + LeBytes(runId, 4)
  }

  /** The bytes of record `i` of a group of `k`: its header, then filler. */
  function RecordBytes(k: nat, valueBytes: nat, i: nat, phase: byte, runId: nat): (r: seq<byte>)
    requires valueBytes >= HEADER
    ensures |r| == valueBytes
  {
    HeaderBytes(k, valueBytes, i, phase, runId) + seq(valueBytes - HEADER, _ => FILLER)
  }

  /** A store right after the `off` bytes already written. */
  method PutNext(r: array<byte>, off: nat, v: nat, n: nat, ghost done: seq<byte>)
    requires off + n <= r.Length && r[..off] == done
    modifies r
    ensures r[..off + n] == done + LeBytes(v, n)
    ensures forall j :: off + n <= j < r.Length ==> r[j] == old(r[j])
  {
    PutLe(r, off, v, n);
    assert r[..off + n] == r[..][..off + n];
    assert r[off + n..] == r[..][off + n..] == old(r[off + n..]);
    forall j | off + n <= j < r.Length ensures r[j] == old(r[j]) {
      assert r[j] == r[off + n..][j - off - n];
    }
  }

  /** Fill one record in place, field by field. */
  method FillRecord(r: array<byte>, k: nat, i: nat, phase: byte, runId: nat)
    requires r.Length >= HEADER && r[HEADER..] == seq(r.Length - HEADER, _ => FILLER)
    modifies r
    ensures r[..] == RecordBytes(k, r.Length, i, phase, runId)
  {
    var n := r.Length;
    ghost var tail := r[HEADER..];
    PutNext(r, OFF_LEN, n, 4, []);
    ghost var d1 := LeBytes(n, 4);
    assert r[..4] == d1;
    PutNext(r, OFF_MAGIC, MAGIC, 2, d1);
    ghost var d2 := d1 + LeBytes(MAGIC, 2);
    PutNext(r, OFF_WIDTH, k, 2, d2);
    ghost var d3 := d2 + LeBytes(k, 2);
    PutNext(r, OFF_INDEX, i, 2, d3);
    ghost var d4 := d3 + LeBytes(i, 2);
    assert r[HEADER..] == tail;
    r[OFF_PHASE] := phase;
    r[OFF_PHASE + 1] := 0;
    ghost var d5 := d4 + [phase, 0];
    assert r[..12] == d5;
    assert r[HEADER..] == tail;
    PutNext(r, OFF_TS, 0, 8, d5);
    ghost var d6 := d5 + LeBytes(0, 8);
    PutNext(r, OFF_RUN, runId, 4, d6);
    assert r[..] == r[..HEADER] + r[HEADER..];
  }

  /** The `k` records of one group. */
  function Group(k: nat, valueBytes: nat, phase: byte, runId: nat): (g: seq<seq<byte>>)
    requires valueBytes >= HEADER
    ensures |g| == k
  {
    seq(k, i requires 0 <= i < k => RecordBytes(k, valueBytes, i, phase, runId))
  }

  method MakeGroup(k: nat, valueBytes: nat, phase: byte, runId: nat) returns (recs: seq<seq<byte>>)
    requires valueBytes >= HEADER
    ensures recs == Group(k, valueBytes, phase, runId)
  {
    recs := [];
    for i := 0 to k
      invariant recs == Group(k, valueBytes, phase, runId)[..i]
    {
      var r := new byte[valueBytes](_ => FILLER);
      FillRecord(r, k, i, phase, runId);
      recs := recs + [r[..]];
    }
  }

  /** What a receiver reads out of a record: each field, modulo its width. */
  lemma RecordFields(k: nat, valueBytes: nat, i: nat, phase: byte, runId: nat)
    requires valueBytes >= HEADER
    ensures var r := RecordBytes(k, valueBytes, i, phase, runId);
            && Field(r, OFF_LEN, 4) == valueBytes % U32 && Field(r, OFF_MAGIC, 2) == MAGIC
            && Field(r, OFF_WIDTH, 2) == k % U16 && Field(r, OFF_INDEX, 2) == i % U16
            && r[OFF_PHASE] == phase && Field(r, OFF_TS, 8) == 0 && Field(r, OFF_RUN, 4) == runId % U32
  {
    FieldSlices(k, valueBytes, i, phase, runId);
    FieldValue(valueBytes, 4);
    FieldValue(MAGIC, 2);
    FieldValue(k, 2);
    FieldValue(i, 2);
    FieldValue(0, 8);
    FieldValue(runId, 4);
  }

  lemma FieldSlices(k: nat, valueBytes: nat, i: nat, phase: byte, runId: nat)
    requires valueBytes >= HEADER
    ensures var r := RecordBytes(k, valueBytes, i, phase, runId);
            && r[0..4] == LeBytes(valueBytes, 4) && r[4..6] == LeBytes(MAGIC, 2) && r[6..8] == LeBytes(k, 2)
            && r[8..10] == LeBytes(i, 2) && r[OFF_PHASE] == phase && r[12..20] == LeBytes(0, 8)
            && r[20..24] == LeBytes(runId, 4)
  {
    var low, mid, high := LeBytes(valueBytes, 4) + LeBytes(MAGIC, 2) + LeBytes(k, 2), LeBytes(i, 2) + [phase, 0],
                          LeBytes(0, 8) + LeBytes(runId, 4);
    var r := RecordBytes(k, valueBytes, i, phase, runId);
    assert HeaderBytes(k, valueBytes, i, phase, runId) == low + mid + high;
    assert r[..8] == low && r[8..12] == mid && r[12..24] == high;
    LowSlices(r, LeBytes(valueBytes, 4), LeBytes(MAGIC, 2), LeBytes(k, 2));
    MidSlices(r, LeBytes(i, 2), phase);
    HighSlices(r, LeBytes(0, 8), LeBytes(runId, 4));
  }

  lemma LowSlices(r: seq<byte>, len: seq<byte>, magic: seq<byte>, width: seq<byte>)
    requires |r| >= HEADER && |len| == 4 && |magic| == 2 && |width| == 2 && r[..8] == len + magic + width
    ensures r[0..4] == len && r[4..6] == magic && r[6..8] == width
  {
    assert r[0..4] == r[..8][..4] && r[4..6] == r[..8][4..6] && r[6..8] == r[..8][6..];
  }

  lemma MidSlices(r: seq<byte>, index: seq<byte>, phase: byte)
    requires |r| >= HEADER && |index| == 2 && r[8..12] == index + [phase, 0]
    ensures r[8..10] == index && r[OFF_PHASE] == phase
  {
    assert r[8..10] == r[8..12][..2] && r[OFF_PHASE] == r[8..12][2];
  }

  lemma HighSlices(r: seq<byte>, ts: seq<byte>, run: seq<byte>)
    requires |r| >= HEADER && |ts| == 8 && |run| == 4 && r[12..24] == ts + run
    ensures r[12..20] == ts && r[20..24] == run
  {
    assert r[12..20] == r[12..24][..8] && r[20..24] == r[12..24][8..];
  }

  lemma FieldValue(v: nat, n: nat)
    requires n == 2 || n == 4 || n == 8
    ensures LeValue(LeBytes(v, n)) == v % (if n == 2 then U16 else if n == 4 then U32 else U64)
  {
    LeRoundTrip(v, n);
    Pow256Values();
  }

  /** A record with its send time stamped. */
  function Stamped(r: seq<byte>, ts: nat): (r': seq<byte>)
    requires |r| >= HEADER
    ensures |r'| == |r|
  {
    r[..OFF_TS] + LeBytes(ts, 8) + r[OFF_RUN..]
  }

  /** Stamping writes the send time and nothing else. */
  method Stamp(rec0: array<byte>, ts: nat)
    requires rec0.Length >= HEADER
    modifies rec0
    ensures rec0[..] == Stamped(old(rec0[..]), ts)
  {
    PutLe(rec0, OFF_TS, ts, 8);
    assert rec0[..] == old(rec0[..OFF_TS]) + LeBytes(ts, 8) + old(rec0[OFF_RUN..]);
  }

  /** The receiver reads the stamp back, and every other field as it was. */
  lemma StampedFields(r: seq<byte>, ts: nat)
    requires |r| >= HEADER && ts < U64
    ensures var r' := Stamped(r, ts);
            && Field(r', OFF_TS, 8) == ts && r'[OFF_PHASE] == r[OFF_PHASE]
            && Field(r', OFF_LEN, 4) == Field(r, OFF_LEN, 4) && Field(r', OFF_MAGIC, 2) == Field(r, OFF_MAGIC, 2)
            && Field(r', OFF_WIDTH, 2) == Field(r, OFF_WIDTH, 2) && Field(r', OFF_INDEX, 2) == Field(r, OFF_INDEX, 2)
            && Field(r', OFF_RUN, 4) == Field(r, OFF_RUN, 4)
  {
    var r' := Stamped(r, ts);
    LeRoundTrip(ts, 8);
    Pow256Values();
    assert r'[12..20] == LeBytes(ts, 8);
    assert r'[0..4] == r[0..4] && r'[4..6] == r[4..6] && r'[6..8] == r[6..8] && r'[8..10] == r[8..10];
    assert r'[20..24] == r[20..24];
  }
}
