/** Option, Result and Outcome: the model's stand-ins for Python's `None`
    and for an exception that a call either raises or does not. */
module Wrappers {

  datatype Option<+T> = None | Some(value: T)

  datatype Result<+R, +E> = Success(value: R) | Failure(error: E)

  /** The result of a call that returns nothing useful but may raise. */
  datatype Outcome<+E> = Pass | Fail(error: E)
}
