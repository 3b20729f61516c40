/** Option and Outcome, for the source's `null` values and thrown exceptions. */
module Wrappers {

  datatype Option<+T> = None | Some(value: T)

  /** The result of an operation that either completes or throws `error`. */
  datatype Outcome<+E> = Pass | Fail(error: E)

  /** The result of an operation that either returns `value` or throws `error`. */
  datatype Result<+R, +E> = Success(value: R) | Failure(error: E)
}
