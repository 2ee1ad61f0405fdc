/** The fixed-width unsigned integers of the source, as bounded `int`s. */
module Ints {
  const U32_MAX: int := 0xFFFF_FFFF
  const U64_MAX: int := 0xFFFF_FFFF_FFFF_FFFF

  type U32 = x: int | 0 <= x <= U32_MAX
  type U64 = x: int | 0 <= x <= U64_MAX

  newtype byte = x: int | 0 <= x < 256

  function Min(a: int, b: int): int {
    if a <= b then a else b
  }
}
