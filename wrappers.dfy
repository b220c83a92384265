/** Failure-carrying datatypes shared by the other modules. */
module Wrappers {

  /** A value that may be absent, like a Python `None` or a missing dictionary key. */
  datatype Option<+T> = None | Some(value: T)

  /** The outcome of a step that either produces a value or raises an error. */
  datatype Result<+T, +E> = Ok(value: T) | Err(error: E)
}
