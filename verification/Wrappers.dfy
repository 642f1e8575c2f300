/** Shared result types and machine-word types. */
module Wrappers {

  datatype Option<+T> = None | Some(value: T)

  datatype Result<+T, +E> = Ok(value: T) | Err(error: E)

  /** A byte of guest memory, of a register or of a pooled value. */
  type byte = x: int | 0 <= x < 256 witness 0

  const TWO64: int := 0x1_0000_0000_0000_0000

  /** An unsigned 64-bit integer where arithmetic on it is what matters. */
  type u64 = x: int | 0 <= x < TWO64 witness 0
}
