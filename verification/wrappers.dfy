/** Failure-compatible result types standing in for the exceptions the
    Python code raises. */
module Wrappers {

  /** The Python exception classes the modelled code can raise. */
  datatype Error =
    | ValueError(message: string)
    | TypeError(message: string)
    | KeyError(key: string)
    | IndexError
    | ZeroDivisionError

  /** Python's `None` or a value. */
  datatype Option<+T> = None | Some(value: T)

  /** A value or the exception raised while computing it. */
  datatype Result<+T> = Ok(value: T) | Err(error: Error) {

    predicate IsFailure() {
      Err?
    }

    function PropagateFailure<U>(): Result<U>
      requires Err?
    {
      Err(error)
    }

    function Extract(): T
      requires Ok?
    {
      value
    }
  }
}
