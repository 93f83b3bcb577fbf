/** Option and Result values, and the byte type, shared by every module of the model. */
module Wrappers {

  /** An optional value, Rust's `Option<T>`. */
  datatype Option<+T> = None | Some(value: T)

  /** A value or an error, Rust's `Result<T, E>`. */
  datatype Result<+T, +E> = Ok(value: T) | Err(error: E)

  /** An unsigned byte, Rust's `u8`. */
  type Byte = x: int | 0 <= x < 256
}
