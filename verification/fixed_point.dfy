/** Machine-integer widths and the fixed-point primitives the firmware builds on.
    Integers are unbounded here; the widths of the C types are stated as range
    predicates and every narrowing conversion is written out. */
module FixedPoint {

  /** A C `uint8`. */
  type byte = b: int | 0 <= b < 0x100

  const Int32Min: int := -0x8000_0000
  const Int32Max: int := 0x7FFF_FFFF
  const Uint32Limit: int := 0x1_0000_0000

  predicate InInt32(x: int) { Int32Min <= x <= Int32Max }
  predicate InInt16(x: int) { -0x8000 <= x <= 0x7FFF }
  predicate InUint16(x: int) { 0 <= x <= 0xFFFF }

  /** `x >> 8` on a two's-complement value: an arithmetic shift, which rounds
      toward negative infinity (the compiler's behaviour for negative `int32`). */
  function Asr8(x: int): (r: int)
    ensures r * 256 <= x < r * 256 + 256
  {
    x / 256
  }

  /** The implicit conversion of an `int` argument to a `uint8` parameter:
      the value modulo 2^8. */
  function ToUint8(x: int): (b: byte)
    ensures (x - b) % 0x100 == 0
    ensures 0 <= x < 0x100 ==> b == x
  {
    x % 0x100
  }

  /** `>> 8` never decreases with its argument. */
  lemma Asr8Monotone(x: int, y: int)
    requires x <= y
    ensures Asr8(x) <= Asr8(y)
  {
  }

  /** Multiplication by a non-negative factor keeps the order of its other operand. */
  lemma MulMonotone(a: int, b: int, c: int)
    requires a <= b && 0 <= c
    ensures a * c <= b * c
  {
    assert b * c - a * c == (b - a) * c;
  }

  /** A product of operands bounded in absolute value is bounded by the product
      of the bounds. */
  lemma MulAbsBound(a: int, b: int, ma: int, mb: int)
    requires 0 <= ma && 0 <= mb
    requires -ma <= a <= ma && -mb <= b <= mb
    ensures -(ma * mb) <= a * b <= ma * mb
  {
  }
}
