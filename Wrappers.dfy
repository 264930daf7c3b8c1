/** Option and Result, the nullable and the may-throw shapes used throughout the model. */
module Wrappers {

  /** A value that may be absent: the model of a C# `null`-able value. */
  datatype Option<+T> = None | Some(value: T) {
    /** The value, or `default` when absent (the C# `??` operator). */
    function GetOr(default: T): T {
      match this
      case Some(v) => v
      case None => default
    }
  }

  /** The exceptions the modelled code throws. */
  datatype Error =
    | FormatError              // System.FormatException
    | InvalidOperation(message: string)  // System.InvalidOperationException
    | NotSupported(message: string)      // System.NotSupportedException
    | NullReference            // System.NullReferenceException
    | JsonError                // System.Text.Json.JsonException
    | ArgumentError            // System.ArgumentException and ArgumentNullException

  /** The outcome of an operation that either returns a value or throws. */
  datatype Result<+R> = Ok(value: R) | Err(error: Error) {
    predicate IsFailure() {
      Err?
    }

    function PropagateFailure<U>(): Result<U>
      requires Err?
    {
      Err(error)
    }

    function Extract(): R
      requires Ok?
    {
      value
    }
  }
}
