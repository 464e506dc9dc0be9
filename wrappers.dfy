/** Optional values and the outcome of operations that can fail (Swift `T?` and `throws`). */
module Wrappers {

  datatype Option<+T> = None | Some(value: T)

  /** The value of a throwing Swift function: either what it returned or what it threw. */
  datatype Result<+R, +E> = Success(value: R) | Failure(error: E)

  /** The outcome of a throwing Swift function that returns nothing. */
  datatype Outcome<+E> = Pass | Fail(error: E)
}
