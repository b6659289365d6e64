/** Stock failure-compatible wrappers: Java's `null` and thrown exceptions become values. */
module Wrappers {

  /** A reference that may be `null`. */
  datatype Option<T> = None | Some(value: T)

  /** A value, or the exception a call threw instead of producing it. */
  datatype Result<T, E> = Success(value: T) | Failure(error: E)

  /** A call that returns nothing, or the exception it threw. */
  datatype Outcome<E> = Pass | Fail(error: E)
}
