/** The two failure types used throughout the model. */
module Wrappers {

  datatype Option<+T> = None | Some(value: T)

  /** A Go pair (value, error): exactly one of the two is meaningful. */
  datatype Result<+T, +E> = Ok(value: T) | Err(error: E)
}
