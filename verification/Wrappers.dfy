/** Failure values shared by every module: `Option` for a nullable column or a
    missing field, `Result` for a function of the source that may throw. */
module Wrappers {
  datatype Option<+T> = None | Some(value: T)

  datatype Result<+T, +E> = Ok(value: T) | Err(error: E)
}
