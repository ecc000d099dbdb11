/** The 64-bit integers of the source language, as ranges of the unbounded ones. */
module MachineInts {
  const MIN_INT64: int := -0x8000_0000_0000_0000
  const MAX_INT64: int := 0x7FFF_FFFF_FFFF_FFFF
  const TWO_TO_64: int := 0x1_0000_0000_0000_0000

  type Int64 = x: int | -0x8000_0000_0000_0000 <= x <= 0x7FFF_FFFF_FFFF_FFFF
  type Uint64 = x: int | 0 <= x < 0x1_0000_0000_0000_0000
}
