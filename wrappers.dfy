/** Option and Result for the Go code's `(value, error)` returns. */
module Wrappers {
  datatype Option<T> = None | Some(value: T)

  /** A Go `(T, error)` pair: exactly one of the two is meaningful. Errors are their message text. */
  datatype Result<T> = Ok(value: T) | Err(error: string)
  {
    predicate IsFailure() { Err? }

    function PropagateFailure<U>(): Result<U>
      requires Err?
    {
      Err(error)
    }

    function Extract(): T
      requires Ok?
    {
      value
    }
  }

  /** A Go call that returns only an `error` (nil on success). */
  datatype Outcome = Pass | Fail(error: string)
  {
    predicate IsFailure() { Fail? }

    function PropagateFailure(): Outcome
      requires Fail?
    {
      this
    }
  }
}
