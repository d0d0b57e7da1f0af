/** Failure-compatible result types shared by every module of the model. */
module Wrappers {

  /** A value that may be absent: a nullable Java field or an optional TypeScript property. */
  datatype Option<T> = None | Some(value: T) {

    /** The wrapped value, or `default` when absent (`x != null ? x : default`). */
    function GetOr(default: T): T {
      match this
      case Some(v) => v
      case None => default
    }
  }

  /** The outcome of an operation that may throw: its value or the exception it raises. */
  datatype Result<T, E> = Success(value: T) | Failure(error: E)

  /** The outcome of an operation that returns nothing but may throw. */
  datatype Outcome<E> = Pass | Fail(error: E)
}
