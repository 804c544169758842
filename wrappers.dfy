/** Failure-compatible wrappers used across the model: a missing JSON key or an
    absent optional value is `None`, an operation that can raise is a `Result`. */
module Wrappers {

  datatype Option<+T> = None | Some(value: T)

  datatype Result<+R, +E> = Ok(value: R) | Err(error: E)
}
