/** Option and Result types shared by every module.
    A JavaScript `throw new Error(m)` is modelled as `Err(m)`: the thrown message is
    the only part of an error object the code ever reads. */
module Outcomes {

  /** A value that may be absent (JavaScript `null` / `undefined`). */
  datatype Option<+T> = None | Some(value: T)

  /** The outcome of an operation that may throw. */
  datatype Result<+T> = Ok(value: T) | Err(message: string) {

    /** The same error, at another value type. */
    function PropagateError<U>(): Result<U>
      requires Err?
    {
      Err(message)
    }
  }
}
