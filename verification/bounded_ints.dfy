/** Fixed-width integers of the C++ driver, as subset types of `int`, with
    the wrap-around of `++` and `--` on a 32-bit counter, and the narrowing
    of an `int` into an `int8_t`, written out. */
module BoundedInts {

  const TWO_TO_THE_32: int := 0x1_0000_0000

  type uint8 = x: int | 0 <= x < 0x100
  type uint16 = x: int | 0 <= x < 0x1_0000
  type uint32 = x: int | 0 <= x < TWO_TO_THE_32
  type int32 = x: int | -0x8000_0000 <= x < 0x8000_0000
  type int8 = x: int | -0x80 <= x < 0x80

  /** `x++` on a `uint32_t`. */
  function Inc32(x: uint32): (r: uint32)
    ensures x < TWO_TO_THE_32 - 1 ==> r == x + 1
    ensures x == TWO_TO_THE_32 - 1 ==> r == 0
  {
    (x + 1) % TWO_TO_THE_32
  }

  /** `x--` on a `uint32_t`: zero wraps to the largest value. */
  function Dec32(x: uint32): (r: uint32)
    ensures x > 0 ==> r == x - 1
    ensures x == 0 ==> r == TWO_TO_THE_32 - 1
  {
    (x - 1) % TWO_TO_THE_32
  }

  /** Storing an `int` in an `int8_t`: the value is kept when it fits, and
      otherwise reduced modulo 256 into -128 .. 127. */
  function ToInt8(x: int): (r: int8)
    ensures -0x80 <= x < 0x80 ==> r == x
    ensures (x - r) % 0x100 == 0
  {
    (x + 0x80) % 0x100 - 0x80
  }
}
