/** The option and result types that stand for Rust's `Option` and `Result` and for `undefined` or a
    thrown error in TypeScript. */
module Wrappers {
  datatype Option<+T> = None | Some(value: T)

  datatype Result<+T> = Ok(value: T) | Err

  function Max(a: int, b: int): int {
    if a < b then b else a
  }
}
