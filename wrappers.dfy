/** Option, result and outcome datatypes used throughout the model. */
module Wrappers {

  /** An optional value: a field that was set, or one that was left unset. */
  datatype Option<+T> = None | Some(value: T)

  /** The outcome of an operation that returns a value or throws an exception carrying a message. */
  datatype Result<+R, +E> = Success(value: R) | Failure(error: E)

  /** The outcome of an operation that returns nothing of interest or throws with a message. */
  datatype Outcome = Pass | Fail(message: string)
}
