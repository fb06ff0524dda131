/** Failure-carrying values shared by all modules. */
module Wrappers {

  /** A Go pointer or map lookup that may be nil or missing. */
  datatype Option<+T> = None | Some(value: T)

  /** A Go (value, error) pair: exactly one of the two is meaningful. */
  datatype Result<+T, +E> = Ok(value: T) | Err(error: E)
}
