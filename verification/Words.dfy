/** Bytes and word sizes. */
module Words {
  /** A byte for arithmetic on bits. */
  type byte = bv8

  /** A byte as a number. */
  type octet = x: int | 0 <= x < 256

  const TWO31: int := 0x8000_0000
  const TWO32: nat := 0x1_0000_0000
  const TWO64: nat := 0x1_0000_0000_0000_0000

  /** Cut to 32 bits and taken as signed. */
  function Int32(x: int): int { (x + TWO31) % TWO32 - TWO31 }

  /** The same with 64 bits. */
  function Int64(x: int): int { var u := x % TWO64; if u < TWO64 / 2 then u else u - TWO64 }
}
