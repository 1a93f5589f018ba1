/** Option and Result, plus the value a JavaScript `throw` carries. */
module Outcomes {

  datatype Option<+T> = None | Some(value: T)

  /** A failure-compatible result: `Err` plays the part of a thrown exception. */
  datatype Result<+T, +E> = Ok(value: T) | Err(error: E) {
    predicate IsFailure() {
      Err?
    }

    function PropagateFailure<U>(): Result<U, E>
      requires Err?
    {
      Err(error)
    }

    function Extract(): T
      requires Ok?
    {
      value
    }
  }

  /** What a `catch` clause receives: an `Error` object with its message, or
      any other thrown value (for which `error instanceof Error` is false). */
  datatype Thrown = ErrorObject(message: string) | OtherValue
}
