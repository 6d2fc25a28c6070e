// Option, and the Result type every fallible operation of the model returns.

module Wrappers {
  import opened Errors

  datatype Option<+T> = None | Some(value: T)

  /** A value or the `Error` that stopped the computation (Rust's `Result<T, Error>`);
      `:-` propagates the error like Rust's `?`. */
  datatype Result<+T> = Ok(value: T) | Err(error: Error) {
    predicate IsFailure() {
      Err?
    }

    function PropagateFailure<U>(): Result<U>
      requires Err?
    {
      Err(error)
    }

    function Extract(): T
      requires Ok?
    {
      value
    }
  }
}
