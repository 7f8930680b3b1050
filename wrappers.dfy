/** Failure-compatible wrappers used to model the source's `None` values and raised exceptions. */
module Wrappers {

  /** An attribute or field that may not have been assigned yet (Python's `None`). */
  datatype Option<+T> = None | Some(value: T)

  /** A value, or the error an operation raised instead of producing it. */
  datatype Result<+T, +E> = Ok(value: T) | Err(error: E)

  /** An operation that returns nothing, or the error it raised. */
  datatype Outcome<+E> = Pass | Fail(error: E)
}
