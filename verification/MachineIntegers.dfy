/** Fixed-width integers: every operation on them carries the obligation that it does not wrap. */
module MachineIntegers {
  newtype uint64 = x: int | 0 <= x < 0x1_0000_0000_0000_0000
  newtype int64 = x: int | -0x8000_0000_0000_0000 <= x < 0x8000_0000_0000_0000
}
