/** The absent-or-present and success-or-failure values the model returns. */
module Wrappers {
  /** Python's `None` or a value. */
  datatype Option<+T> = None | Some(value: T)

  /** A normal return or a raised exception. */
  datatype Result<+R, +E> = Success(value: R) | Failure(error: E)
}
