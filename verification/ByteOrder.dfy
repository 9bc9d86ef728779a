/** Bytes and little-endian integers, shared by every wire format of the harness. */
module ByteOrder {

  type byte = b: int | 0 <= b < 256

  const U16: nat := 0x1_0000
  const U32: nat := 0x1_0000_0000
  const U64: nat := 0x1_0000_0000_0000_0000

  /** 256 to the power `n`: the number of values `n` bytes can hold. */
  function Pow256(n: nat): (r: nat)
    ensures r >= 1
  {
    if n == 0 then 1 else 256 * Pow256(n - 1)
  }

  /** The integer that `s` spells, least significant byte first. */
  function LeValue(s: seq<byte>): nat {
    if s == [] then 0 else s[0] + 256 * LeValue(s[1..])
  }

  /** The low `n` bytes of `v`, least significant byte first. */
  function LeBytes(v: nat, n: nat): (r: seq<byte>)
    ensures |r| == n
  {
    if n == 0 then [] else [v % 256] + LeBytes(v / 256, n - 1)
  }

  lemma Pow256Values()
    ensures Pow256(1) == 256 && Pow256(2) == U16 && Pow256(3) == 0x100_0000 && Pow256(4) == U32
    ensures Pow256(8) == U64
  {
    assert Pow256(1) == 256;
    assert Pow256(2) == U16;
    assert Pow256(3) == 0x100_0000;
    assert Pow256(4) == U32;
    assert Pow256(5) == 0x100_0000_0000;
    assert Pow256(6) == 0x1_0000_0000_0000;
    assert Pow256(7) == 0x100_0000_0000_0000;
  }

  /** Reading back what was stored gives the value modulo the field's width. */
  lemma {:induction false} LeRoundTrip(v: nat, n: nat)
    ensures LeValue(LeBytes(v, n)) == v % Pow256(n)
    ensures v < Pow256(n) ==> LeValue(LeBytes(v, n)) == v
  {
    if n > 0 {
      LeRoundTrip(v / 256, n - 1);
      assert LeBytes(v, n)[1..] == LeBytes(v / 256, n - 1);
      var q, m := v / 256, Pow256(n - 1);
      DivModSplit(v, q, m);
    }
  }

  lemma DivModSplit(v: nat, q: nat, m: nat)
    requires q == v / 256 && m >= 1
    ensures v % (256 * m) == v % 256 + 256 * (q % m)
  {
    var k, r := q / m, q % m;
    assert q == k * m + r;
    assert v == 256 * q + v % 256;
    assert v == k * (256 * m) + (256 * r + v % 256) by {
      assert 256 * (k * m) == k * (256 * m);
    }
    assert 0 <= 256 * r + v % 256 < 256 * m;
    ModUnique(v, 256 * m, k, 256 * r + v % 256);
  }

  /** A quotient and an in-range remainder determine `x % d`. */
  lemma ModUnique(x: int, d: int, k: int, r: int)
    requires d > 0 && 0 <= r < d && x == k * d + r
    ensures x % d == r && x / d == k
  {
    var k', r' := x / d, x % d;
    assert x == k' * d + r';
    assert (k - k') * d == r' - r;
    assert k - k' >= 1 ==> (k - k') * d >= d;
    assert k - k' <= -1 ==> (k - k') * d <= -d;
  }

  /** Storing what was read gives the bytes back. */
  lemma {:induction false} LeBytesOfValue(s: seq<byte>)
    ensures LeBytes(LeValue(s), |s|) == s
    ensures LeValue(s) < Pow256(|s|)
  {
    if s != [] {
      LeBytesOfValue(s[1..]);
      ModUnique(LeValue(s), 256, LeValue(s[1..]), s[0]);
      assert s == [s[0]] + s[1..];
    }
  }

  /** Byte `i` of the encoding is the one `(v >> (8 * i)) & 0xFF` names. */
  lemma {:induction false} LeBytesAt(v: nat, n: nat, i: nat)
    requires i < n
    ensures LeBytes(v, n)[i] == v / Pow256(i) % 256
  {
    if i > 0 {
      LeBytesAt(v / 256, n - 1, i - 1);
      DivDiv(v, 256, Pow256(i - 1));
    }
  }

  lemma DivDiv(v: nat, a: nat, b: nat)
    requires a > 0 && b > 0
    ensures v / a / b == v / (a * b)
  {
    var q := v / a;
    var k, r, e := q / b, q % b, v % a;
    RegroupQuotient(v, a, b, q, k, r, e);
    ModUnique(v, a * b, k, a * r + e);
  }

  lemma RegroupQuotient(v: int, a: int, b: int, q: int, k: int, r: int, e: int)
    requires a > 0 && b > 0 && 0 <= e < a && 0 <= r < b
    requires v == a * q + e && q == k * b + r
    ensures v == k * (a * b) + (a * r + e) && 0 <= a * r + e < a * b
  {
    Spread(a, k * b, r);
    Swapped(a, k, b);
    BelowProduct(a, b, r);
  }

  lemma Spread(a: int, x: int, y: int)
    ensures a * (x + y) == a * x + a * y
  {
  }

  lemma Swapped(a: int, k: int, b: int)
    ensures a * (k * b) == k * (a * b)
  {
  }

  lemma BelowProduct(a: int, b: int, r: int)
    requires a > 0 && 0 <= r < b
    ensures 0 <= a * r && a * r + a <= a * b
  {
    var c := b - r - 1;
    Spread(a, r, 1 + c);
    Spread(a, 1, c);
    NonNegative(a, r);
    NonNegative(a, c);
  }

  lemma NonNegative(a: int, c: int)
    requires a >= 0 && c >= 0
    ensures a * c >= 0
  {
  }

  /** Appending a more significant byte. */
  lemma {:induction false} LeValueAppend(s: seq<byte>, b: byte)
    ensures LeValue(s + [b]) == LeValue(s) + b * Pow256(|s|)
  {
    if s == [] {
      assert s + [b] == [b];
      assert [b][1..] == [];
    } else {
      LeValueAppend(s[1..], b);
      assert (s + [b])[1..] == s[1..] + [b];
      assert 256 * (b * Pow256(|s| - 1)) == b * Pow256(|s|);
    }
  }

  /** Parts one after the other. */
  function Concat(parts: seq<seq<byte>>): seq<byte> {
    if parts == [] then [] else parts[0] + Concat(parts[1..])
  }

  lemma {:induction false} ConcatAppend(parts: seq<seq<byte>>, part: seq<byte>)
    ensures Concat(parts + [part]) == Concat(parts) + part
  {
    if parts == [] {
      assert parts + [part] == [part] && [part][1..] == [];
      assert part + [] == part && [] + part == part;
    } else {
      ConcatAppend(parts[1..], part);
      assert (parts + [part])[1..] == parts[1..] + [part];
      assert parts[0] + (Concat(parts[1..]) + part) == parts[0] + Concat(parts[1..]) + part;
    }
  }
}
