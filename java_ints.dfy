/**
 * Java's fixed-width integer semantics as far as the modelled code relies on them:
 * `short` wrap-around, the `(byte)` casts and masks used to split an id into two planes,
 * signed byte promotion, bitwise OR of two bytes, and truncating integer division.
 */
module JavaInts {

  /** One element of a `byte[]` plane, held as its unsigned value 0..255. */
  newtype Byte = b: int | 0 <= b < 256

  const ShortMin: int := -32768
  const ShortMax: int := 32767

  predicate IsShort(x: int) {
    ShortMin <= x <= ShortMax
  }

  const IntMin: int := -0x8000_0000
  const IntMax: int := 0x7FFF_FFFF

  /** The values of a Java `int`. */
  predicate IsInt(x: int) {
    IntMin <= x <= IntMax
  }

  /** The `(short)` narrowing of an int: two's complement wrap-around. */
  function ShortWrap(x: int): (r: int)
    ensures IsShort(r)
    ensures IsShort(x) ==> r == x
    ensures (x - r) % 65536 == 0
  {
    (x + 32768) % 65536 - 32768
  }

  /** `(byte) (d & 0xff)`: the low eight bits of a (sign-extended) value. */
  function LowByte(d: int): (r: Byte)
    ensures 0 <= d < 256 ==> r as int == d
    ensures (d - r as int) % 256 == 0
  {
    (d % 256) as Byte
  }

  /** `(byte) ((d & 0xff00) >> 8)`: bits 8..15 of a (sign-extended) value. */
  function HighByte(d: int): (r: Byte)
    ensures 0 <= d < 256 ==> r == 0
    ensures 0 <= d < 65536 ==> r as int == d / 256
  {
    ((d % 65536) / 256) as Byte
  }

  /** A Java `byte` promoted to `int`: sign extension of the stored bits. */
  function Signed(b: Byte): (r: int)
    ensures -128 <= r < 128
    ensures (r - b as int) % 256 == 0
    ensures r == b as int <==> b < 128
  {
    if b < 128 then b as int else b as int - 256
  }

  function Pow2(k: nat): (r: nat)
    ensures r >= 1
  {
    if k == 0 then 1 else 2 * Pow2(k - 1)
  }

  /** Bitwise OR of the low `k` bits of two non-negative values. */
  function OrBits(a: int, b: int, k: nat): (r: int)
    requires 0 <= a < Pow2(k) && 0 <= b < Pow2(k)
    ensures 0 <= r < Pow2(k)
    ensures b == 0 ==> r == a
    ensures a == 0 ==> r == b
    decreases k
  {
    if k == 0 then 0
    else 2 * OrBits(a / 2, b / 2, k - 1) + (if a % 2 == 1 || b % 2 == 1 then 1 else 0)
  }

  /** `a | b` on two values of 0..255. */
  function Or(a: Byte, b: Byte): (r: Byte)
    ensures b == 0 ==> r == a
    ensures a == 0 ==> r == b
  {
    assert Pow2(8) == 256;
    OrBits(a as int, b as int, 8) as Byte
  }

  /** Java's `/` on int: the quotient truncated toward zero (for a positive divisor). */
  function TruncDiv(a: int, d: int): (q: int)
    requires d > 0
    ensures a >= 0 ==> q == a / d
    ensures a < 0 ==> q * d >= a && (q - 1) * d < a
  {
    if a >= 0 then a / d else -((-a) / d)
  }
}
