/** Option, Result and Outcome: how the model writes JavaScript's `undefined`
    results and thrown errors. */
module Wrappers {

  /** A value or JavaScript's `undefined`. */
  datatype Option<+T> = None | Some(value: T)

  /** A value, or the error an entry point throws. */
  datatype Result<+R, +E> = Success(value: R) | Failure(error: E)

  /** Normal completion of a `void` function, or the error it throws. */
  datatype Outcome<+E> = Pass | Fail(error: E)
}
