/** Small result types shared by the other modules. */
module Wrappers {
  datatype Option<+T> = None | Some(value: T)

  datatype Result<+T, +E> = Success(value: T) | Failure(error: E)

  /** A byte, as held by Rust's `u8`. */
  type Byte = b: int | 0 <= b < 256
}
