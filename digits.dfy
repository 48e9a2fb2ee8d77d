/** Unsigned and two's-complement integers written as fixed-width groups of
    bytes, in either byte order: the arithmetic behind numpy's `frombuffer`
    and Python's `int.to_bytes`. */
module Digits {

  type Byte = x: int | 0 <= x < 256

  function Pow2(n: nat): (r: nat)
    ensures r >= 1
  {
    if n == 0 then 1 else 2 * Pow2(n - 1)
  }

  lemma Pow2Byte(n: nat)
    ensures Pow2(n + 8) == 256 * Pow2(n)
  {
    calc {
      Pow2(n + 8);
      2 * Pow2(n + 7);
      4 * Pow2(n + 6);
      8 * Pow2(n + 5);
      16 * Pow2(n + 4);
      32 * Pow2(n + 3);
      64 * Pow2(n + 2);
      128 * Pow2(n + 1);
      256 * Pow2(n);
    }
  }

  // ---------------------------------------------------------------------
  // Little-endian: the first byte is the least significant.

  function LeValue(s: seq<Byte>): nat
  {
    if s == [] then 0 else s[0] + 256 * LeValue(s[1..])
  }

  function LeBytes(v: nat, n: nat): (r: seq<Byte>)
    ensures |r| == n
  {
    if n == 0 then [] else [v % 256] + LeBytes(v / 256, n - 1)
  }

  /** An n-byte group holds values below 2^(8n). */
  lemma {:induction false} LeValueBound(s: seq<Byte>)
    ensures LeValue(s) < Pow2(8 * |s|)
  {
    if s != [] {
      LeValueBound(s[1..]);
      Pow2Byte(8 * (|s| - 1));
    }
  }

  /** Writing v in n bytes and reading it back gives v, when v fits. */
  lemma {:induction false} LeValueOfBytes(v: nat, n: nat)
    requires v < Pow2(8 * n)
    ensures LeValue(LeBytes(v, n)) == v
  {
    if n > 0 {
      Pow2Byte(8 * (n - 1));
      LeValueOfBytes(v / 256, n - 1);
      assert LeBytes(v, n)[1..] == LeBytes(v / 256, n - 1);
    }
  }

  /** Reading a byte group and writing the value back gives the same bytes. */
  lemma {:induction false} LeBytesOfValue(s: seq<Byte>)
    ensures LeBytes(LeValue(s), |s|) == s
  {
    if s != [] {
      var x := LeValue(s[1..]);
      assert (s[0] + 256 * x) % 256 == s[0] && (s[0] + 256 * x) / 256 == x;
      LeBytesOfValue(s[1..]);
      assert LeBytes(LeValue(s), |s|) == [s[0]] + LeBytes(x, |s| - 1);
    }
  }

  // ---------------------------------------------------------------------
  // Big-endian: the last byte is the least significant.

  function BeValue(s: seq<Byte>): nat
  {
    if s == [] then 0 else 256 * BeValue(s[..|s| - 1]) + s[|s| - 1]
  }

  function BeBytes(v: nat, n: nat): (r: seq<Byte>)
    ensures |r| == n
  {
    if n == 0 then [] else BeBytes(v / 256, n - 1) + [v % 256]
  }

  lemma {:induction false} BeValueBound(s: seq<Byte>)
    ensures BeValue(s) < Pow2(8 * |s|)
  {
    if s != [] {
      BeValueBound(s[..|s| - 1]);
      Pow2Byte(8 * (|s| - 1));
    }
  }

  lemma {:induction false} BeValueOfBytes(v: nat, n: nat)
    requires v < Pow2(8 * n)
    ensures BeValue(BeBytes(v, n)) == v
  {
    if n > 0 {
      Pow2Byte(8 * (n - 1));
      BeValueOfBytes(v / 256, n - 1);
      var s := BeBytes(v, n);
      assert s[..|s| - 1] == BeBytes(v / 256, n - 1);
    }
  }

  lemma {:induction false} BeBytesOfValue(s: seq<Byte>)
    ensures BeBytes(BeValue(s), |s|) == s
  {
    if s != [] {
      BeBytesOfValue(s[..|s| - 1]);
    }
  }

  // ---------------------------------------------------------------------
  // Two's complement in a given number of bits.

  predicate SignedInRange(v: int, bits: nat)
    requires bits >= 1
  {
    -(Pow2(bits - 1) as int) <= v < Pow2(bits - 1)
  }

  /** The signed reading of an unsigned bit pattern. */
  function ToSigned(u: int, bits: nat): int
    requires bits >= 1
  {
    if u >= Pow2(bits - 1) then u - Pow2(bits) else u
  }

  /** The bit pattern of a signed value that fits. */
  function ToUnsigned(v: int, bits: nat): int
    requires bits >= 1 && SignedInRange(v, bits)
  {
    if v < 0 then v + Pow2(bits) else v
  }

  lemma SignedOfPattern(u: int, bits: nat)
    requires bits >= 1 && 0 <= u < Pow2(bits)
    ensures SignedInRange(ToSigned(u, bits), bits)
    ensures ToUnsigned(ToSigned(u, bits), bits) == u
  {
  }

  lemma PatternOfSigned(v: int, bits: nat)
    requires bits >= 1 && SignedInRange(v, bits)
    ensures 0 <= ToUnsigned(v, bits) < Pow2(bits)
    ensures ToSigned(ToUnsigned(v, bits), bits) == v
  {
  }

  // ---------------------------------------------------------------------
  // 16-bit fields of a wide value.

  /** Bits 16k .. 16k+15 of v: shift right by 16 bits k times, then keep the low 16 bits. */
  function Bits16(v: nat, k: nat): (r: nat)
    ensures r < 65536
  {
    if k == 0 then v % 65536 else Bits16(v / 65536, k - 1)
  }

  /** The 16-bit little-endian value of bytes j and j+1. */
  function LePair(s: seq<Byte>, j: nat): int
    requires j + 2 <= |s|
  {
    s[j] as int + 256 * s[j + 1] as int
  }

  /** Bytes 2k and 2k+1 of v's little-endian form, read little-endian, are bits 16k .. 16k+15 of v. */
  lemma {:induction false} LeBytesPair(v: nat, n: nat, k: nat)
    requires 2 * k + 2 <= n
    ensures LePair(LeBytes(v, n), 2 * k) == Bits16(v, k)
  {
    var s := LeBytes(v, n);
    var rest := LeBytes(v / 256 / 256, n - 2);
    assert LeBytes(v / 256, n - 1) == [(v / 256) % 256] + rest;
    assert s == [v % 256] + ([(v / 256) % 256] + rest);
    if k == 0 {
      assert (v % 256) + 256 * ((v / 256) % 256) == v % 65536;
    } else {
      assert v / 256 / 256 == v / 65536;
      LeBytesPair(v / 65536, n - 2, k - 1);
      assert s[2 * k] == rest[2 * (k - 1)] && s[2 * k + 1] == rest[2 * (k - 1) + 1];
    }
  }
}
