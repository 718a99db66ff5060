/** Optional values and exception-carrying results, standing in for Java's
    `null`, `Optional` and thrown exceptions. */
module Wrappers {

  /** A value that may be absent (Java `Optional`, or a nullable reference). */
  datatype Option<+T> = None | Some(value: T) {

    /** The held value, or `default` when absent (Java `orElse`). */
    function OrElse(default: T): T {
      if Some? then value else default
    }
  }

  /** The value a call returns, or the exception it throws. */
  datatype Result<+T, +E> = Success(value: T) | Failure(error: E)

  /** What a `void` call does: return normally, or throw. */
  datatype Outcome<+E> = Pass | Fail(error: E)
}
