/**
 * Failure-compatible wrappers: `Option` stands for a C# reference that may be
 * null, `Result` for a call that returns a value or throws, and `Outcome` for
 * a `void` call that returns or throws. `Result` and `Outcome` work with `:-`,
 * which gives the early exit of a thrown exception.
 */
module Wrappers {

  datatype Option<+T> = None | Some(value: T)

  datatype Result<+R, +E> = Ok(value: R) | Err(error: E) {

    predicate IsFailure() {
      Err?
    }

    function PropagateFailure<U>(): Result<U, E>
      requires Err?
    {
      Err(error)
    }

    function Extract(): R
      requires Ok?
    {
      value
    }
  }

  datatype Outcome<+E> = Pass | Fail(error: E) {

    predicate IsFailure() {
      Fail?
    }

    function PropagateFailure<U>(): Result<U, E>
      requires Fail?
    {
      Err(error)
    }
  }
}
