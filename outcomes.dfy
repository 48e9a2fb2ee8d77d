/** Python exceptions that the modelled code can raise, and the result type
    that carries either a value or the exception that ends the call. */
module Outcomes {

  datatype PyError =
    | ValueError(reason: string)
    | IndexError
    | MissingSnapshot(name: string)
    | OverflowError
    | TypeError(reason: string)

  datatype Result<+T> = Ok(value: T) | Err(error: PyError) {
    predicate IsFailure() { Err? }

    function PropagateFailure<U>(): Result<U>
      requires Err?
    {
      Err(error)
    }

    function Extract(): T
      requires Ok?
    {
      value
    }
  }
}
