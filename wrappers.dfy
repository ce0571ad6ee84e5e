/** Option, Result and Outcome: the model's stand-ins for C# nullable values and exceptions. */
module Wrappers {

  /** A C# reference or `Nullable<T>` that may be null. */
  datatype Option<+T> = None | Some(value: T) {
    /** `x ?? fallback` */
    function GetOr(fallback: T): T {
      match this
      case Some(v) => v
      case None => fallback
    }
  }

  /** The value an operation returns, or the exception it throws. */
  datatype Result<+R, +E> = Success(value: R) | Failure(error: E)

  /** Completion of an operation that returns nothing (a `Task`), or the exception it throws. */
  datatype Outcome<+E> = Pass | Fail(error: E)
}
