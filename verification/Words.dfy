// Machine words, bytes and the optional value, shared by every module.

module Words {
  const TWO32: int := 0x1_0000_0000
  const TWO64: int := 0x1_0000_0000_0000_0000

  /** The largest size `ftell` can report: a signed 64-bit long. */
  const FILE_LIMIT: int := 0x8000_0000_0000_0000

  /** uint32_t */
  type U32 = x: int | 0 <= x < TWO32

  /** size_t and unsigned long on a 64-bit Unix */
  type U64 = x: int | 0 <= x < TWO64

  type Byte = bv8

  datatype Option<+T> = None | Some(value: T)

  /** Unsigned 64-bit addition and subtraction wrap. */
  function Add64(a: U64, b: U64): U64 {
    if a + b < TWO64 then a + b else a + b - TWO64
  }

  function Sub64(a: U64, b: U64): U64 {
    if b <= a then a - b else a - b + TWO64
  }

  /** A conversion to uint32_t keeps the low 32 bits. */
  function Trunc32(x: int): U32 {
    x % TWO32
  }

  function Min(a: int, b: int): int {
    if a <= b then a else b
  }
}
