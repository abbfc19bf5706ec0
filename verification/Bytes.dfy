/** Shared value types, and the number of values of a uint64. */
module Bytes {
  newtype byte = x: int | 0 <= x < 256

  const TWO64: nat := 0x1_0000_0000_0000_0000

  datatype Option<+T> = None | Some(value: T)
}
