/** Optional values and the outcomes of operations that may fail. */
module Wrappers {
  datatype Option<+T> = None | Some(value: T)

  function Or<T>(value: Option<T>, default: T): T {
    if value.Some? then value.value else default
  }

  datatype Result<+T, +E> = Success(value: T) | Failure(error: E)

  /** The outcome of an operation that returns nothing when it succeeds. */
  datatype Outcome<+E> = Pass | Fail(error: E)
}
