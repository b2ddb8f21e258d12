/** Java's fixed-width integers, written out on Dafny's unbounded int. */
module JavaInts {
  const LONG_MIN: int := -0x8000_0000_0000_0000
  const LONG_MAX: int := 0x7fff_ffff_ffff_ffff
  const INT_MIN: int := -0x8000_0000
  const INT_MAX: int := 0x7fff_ffff

  /** A value a Java `long` can hold. */
  predicate IsLong(x: int) { LONG_MIN <= x <= LONG_MAX }

  type Long = x: int | LONG_MIN <= x <= LONG_MAX

  /** A value a Java `int` can hold. */
  type Int = x: int | INT_MIN <= x <= INT_MAX

  /** A Java byte, kept as its bit pattern 0..255. */
  newtype Byte = x: int | 0 <= x < 256

  /** Two's-complement wrap of a mathematical result into a `long`. */
  function WrapLong(x: int): (r: int)
    ensures IsLong(r)
    ensures IsLong(x) ==> r == x
    ensures (r - x) % 0x1_0000_0000_0000_0000 == 0
  {
    (x - LONG_MIN) % 0x1_0000_0000_0000_0000 + LONG_MIN
  }

  /** The byte a Java `(byte)` cast keeps: the low eight bits. */
  function LowByte(x: int): Byte { (x % 256) as Byte }

  /** The value of a Java byte read as a signed number (sign extension to long). */
  function Signed(b: Byte): (r: int)
    ensures -128 <= r < 128 && LowByte(r) == b
  {
    if b < 128 then b as int else b as int - 256
  }
}
