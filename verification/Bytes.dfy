/** Bytes, 64-bit signed integers with wrap-around, and big-endian encodings. */
module Bytes {

  newtype byte = x: int | 0 <= x < 256
  type bytes = seq<byte>

  const TWO_32: int := 0x1_0000_0000
  const TWO_63: int := 0x8000_0000_0000_0000
  const TWO_64: int := 0x1_0000_0000_0000_0000
  const MIN_I64: int := -TWO_63
  const MAX_I64: int := TWO_63 - 1

  type i64 = x: int | -0x8000_0000_0000_0000 <= x < 0x8000_0000_0000_0000
  type u32 = x: int | 0 <= x < 0x1_0000_0000

  /** Two's-complement wrap-around, as Go always does and Rust does in release builds. */
  function Wrap64(x: int): (r: i64)
    ensures (x - r) % TWO_64 == 0
    ensures MIN_I64 <= x <= MAX_I64 ==> r == x
  {
    (x + TWO_63) % TWO_64 - TWO_63
  }

  function Pow256(n: nat): nat {
    if n == 0 then 1 else 256 * Pow256(n - 1)
  }

  /** The last `width` base-256 digits of `value`, most significant first. */
  function BigEndian(width: nat, value: nat): (b: bytes)
    ensures |b| == width
  {
    if width == 0 then [] else BigEndian(width - 1, value / 256) + [(value % 256) as byte]
  }

  function FromBigEndian(b: bytes): nat {
    if b == [] then 0 else FromBigEndian(b[..|b| - 1]) * 256 + b[|b| - 1] as nat
  }

  lemma {:induction false} BigEndianRoundTrip(width: nat, value: nat)
    requires value < Pow256(width)
    ensures FromBigEndian(BigEndian(width, value)) == value
  {
    if width != 0 {
      BigEndianRoundTrip(width - 1, value / 256);
      assert BigEndian(width, value)[..width - 1] == BigEndian(width - 1, value / 256);
    }
  }

  lemma {:induction false} FromBigEndianRoundTrip(b: bytes)
    ensures FromBigEndian(b) < Pow256(|b|)
    ensures BigEndian(|b|, FromBigEndian(b)) == b
  {
    if b != [] {
      FromBigEndianRoundTrip(b[..|b| - 1]);
    }
  }

  lemma Pow256Widths()
    ensures Pow256(4) == TWO_32 && Pow256(8) == TWO_64
  {
    assert Pow256(4) == 256 * Pow256(3) && Pow256(3) == 256 * Pow256(2);
    assert Pow256(8) == 256 * Pow256(7) && Pow256(7) == 256 * Pow256(6);
    assert Pow256(6) == 256 * Pow256(5) && Pow256(5) == 256 * Pow256(4);
  }

  /** Two's complement: negative times count down from 2^64. */
  function I64Bytes(x: i64): (b: bytes)
    ensures |b| == 8
  {
    BigEndian(8, if x < 0 then x + TWO_64 else x)
  }

  function I64FromBytes(b: bytes): i64
    requires |b| == 8
  {
    FromBigEndianBelow(b);
    var u := FromBigEndian(b);
    if u < TWO_63 then u else u - TWO_64
  }

  lemma FromBigEndianBelow(b: bytes)
    ensures |b| == 8 ==> FromBigEndian(b) < TWO_64
    ensures |b| == 4 ==> FromBigEndian(b) < TWO_32
  {
    Pow256Widths();
    FromBigEndianRoundTrip(b);
  }

  lemma I64RoundTrip(x: i64)
    ensures I64FromBytes(I64Bytes(x)) == x
  {
    Pow256Widths();
    BigEndianRoundTrip(8, if x < 0 then x + TWO_64 else x);
  }

  lemma I64FromRoundTrip(b: bytes)
    requires |b| == 8
    ensures I64Bytes(I64FromBytes(b)) == b
  {
    FromBigEndianBelow(b);
    FromBigEndianRoundTrip(b);
  }

  function U32Bytes(x: u32): (b: bytes)
    ensures |b| == 4
  {
    BigEndian(4, x)
  }

  function U32FromBytes(b: bytes): (x: u32)
    requires |b| == 4
  {
    FromBigEndianBelow(b);
    FromBigEndian(b)
  }

  lemma U32RoundTrip(x: u32)
    ensures U32FromBytes(U32Bytes(x)) == x
  {
    Pow256Widths();
    BigEndianRoundTrip(4, x);
  }

  lemma U32FromRoundTrip(b: bytes)
    requires |b| == 4
    ensures U32Bytes(U32FromBytes(b)) == b
  {
    FromBigEndianRoundTrip(b);
  }
}
