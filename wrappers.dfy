/** Failure-carrying results shared by every module of the model. */
module Wrappers {

  /** A value that may be absent (Python's `None` as a return value). */
  datatype Option<+T> = None | Some(value: T)

  /** A value, or the exception the Python code raises instead of returning one. */
  datatype Result<+T, +E> = Ok(value: T) | Err(error: E)

  /** A step that either completes or raises. */
  datatype Outcome<+E> = Pass | Fail(error: E)
}
