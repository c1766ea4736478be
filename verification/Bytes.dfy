/** Bytes as the numbers 0 to 255. */
module Bytes {
  type byte = x: int | 0 <= x < 256

  function Min(a: int, b: int): int {
    if a < b then a else b
  }

  /** A 12-bit length split over the low nibble of one byte and all of the next. */
  function Length12(hi: int, lo: int): int {
    (hi % 16) * 256 + lo
  }

  /** Two bytes in network order. */
  function Word(hi: int, lo: int): int {
    hi * 0x100 + lo
  }
}
