/** The optional-value and result types shared by the other modules. */
module Wrappers {

  /** A value that may be missing (PHP's NULL / an unset array key). */
  datatype Option<+T> = None | Some(value: T)

  /** The outcome of an operation that may throw. */
  datatype Result<+R, +E> = Success(value: R) | Failure(error: E)
}
