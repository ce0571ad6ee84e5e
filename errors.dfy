/** The exception types the core throws and catches, with their place in the .NET class
    hierarchy (an exception handler for a type also catches its subclasses). */
module Errors {

  datatype ExceptionType =
    | Exception
    | SystemException
    | ArgumentException
    | ArgumentNullException
    | ArgumentOutOfRangeException
    | KeyNotFoundException
    | InvalidOperationException
    | ObjectDisposedException
    | ChromaException
      /** Any other type that derives directly from `System.Exception`. */
    | OtherException(name: string)

  /** A thrown exception: its runtime type and its `Message`. */
  datatype Error = Error(kind: ExceptionType, message: string)

  /** Distance from `System.Exception` in the class hierarchy. */
  function Depth(t: ExceptionType): nat {
    match t
    case Exception => 0
    case SystemException => 1
    case ChromaException => 1
    case OtherException(_) => 1
    case ArgumentException => 2
    case KeyNotFoundException => 2
    case InvalidOperationException => 2
    case ArgumentNullException => 3
    case ArgumentOutOfRangeException => 3
    case ObjectDisposedException => 3
  }

  /** The direct base class of `t`; `System.Exception` has none. */
  function BaseType(t: ExceptionType): (b: ExceptionType)
    requires t != Exception
    ensures Depth(b) + 1 == Depth(t)
  {
    match t
    case SystemException => Exception
    case ChromaException => Exception
    case OtherException(_) => Exception
    case ArgumentException => SystemException
    case KeyNotFoundException => SystemException
    case InvalidOperationException => SystemException
    case ArgumentNullException => ArgumentException
    case ArgumentOutOfRangeException => ArgumentException
    case ObjectDisposedException => InvalidOperationException
  }

  /** `ex is T`: the runtime type `t` is `b` or derives from it. */
  predicate IsA(t: ExceptionType, b: ExceptionType)
    decreases Depth(t)
  {
    t == b || (t != Exception && IsA(BaseType(t), b))
  }
}
