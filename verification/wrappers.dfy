/** Failure-compatible wrappers used throughout the model.

    Python exceptions raised by the modelled code become `Err` values of
    `Result`; `None` becomes `Option.None`. */
module Wrappers {

  datatype Option<+T> = None | Some(value: T) {
    predicate IsFailure() { None? }

    function PropagateFailure<U>(): Option<U>
      requires None?
    {
      None
    }

    function Extract(): T
      requires Some?
    {
      value
    }
  }

  /** The Python exception classes the modelled code can raise. */
  datatype Error =
    | KeyError(key: string)
    | ValueError(message: string)
    | IndexError
    | AttributeError(attribute: string)
    | TypeError(message: string)
    | ValidationError(message: string)
    | Exception(message: string)

  datatype Result<+T> = Ok(value: T) | Err(error: Error) {
    predicate IsFailure() { Err? }

    function PropagateFailure<U>(): Result<U>
      requires Err?
    {
      Err(error)
    }

    function Extract(): T
      requires Ok?
    {
      value
    }
  }
}
