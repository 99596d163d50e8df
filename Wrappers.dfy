/** Failure-compatible wrappers shared by the model. */
module Wrappers {

  /** A value that may be absent: Python's `None`, or a dictionary key that is missing. */
  datatype Option<+T> = None | Some(value: T)

  /** The outcome of a call that may raise: either its value or the text of the exception. */
  datatype Outcome<+T> = Ok(value: T) | Raised(error: string)
}
