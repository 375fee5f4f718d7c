/** Shared value types: an optional value and Rust's `u16`. */
module Prelude {

  /** Rust's `Option<T>`, also used for `Result<T, ()>`-shaped returns whose error carries nothing. */
  datatype Option<+T> = None | Some(value: T)

  /** Rust's `u16`. */
  type U16 = x: int | 0 <= x < 0x1_0000
}
