/** Option and Result types standing in for std::optional and for the exceptions
    the library throws. */
module Wrappers {

  datatype Option<+T> = None | Some(value: T) {
    function GetOr(default: T): T
    {
      match this
      case Some(v) => v
      case None => default
    }
  }

  /** The exceptions the modelled code can raise. `NoSuchField`, `IncorrectType` and
      `NumberOutOfRange` are the JSON reader's errors; `RuntimeError` is a
      std::runtime_error with its message; `OutOfRange` is std::out_of_range. */
  datatype Error =
    | NoSuchField(key: string)
    | IncorrectType
    | NumberOutOfRange
    | RuntimeError(what: string)
    | OutOfRange

  /** A computation that either returns a value or throws. */
  datatype Result<+T> = Ok(value: T) | Fail(error: Error) {
    predicate IsFailure()
    {
      Fail?
    }

    function PropagateFailure<U>(): Result<U>
      requires Fail?
    {
      Fail(error)
    }

    function Extract(): T
      requires Ok?
    {
      value
    }
  }
}
