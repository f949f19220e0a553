/** Optional values and results, the Dafny counterparts of Rust's `Option` and `Result`. */
module Outcomes {

  datatype Option<+T> = None | Some(value: T)

  datatype Result<+T, +E> = Ok(value: T) | Err(error: E)
}
