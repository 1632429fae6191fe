/** Failure-carrying wrappers shared by the other modules. */
module Wrappers {

  /** A value that may be absent, the model of Python's `None`-or-value returns. */
  datatype Option<+T> = None | Some(value: T)

  /** The outcome of an operation that Python would abort with an exception. */
  datatype Result<+R, +E> = Ok(value: R) | Err(error: E)
}
