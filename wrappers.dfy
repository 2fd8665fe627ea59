/** Failure-carrying values. The Java code signals failures by throwing a
    `CalcError` that carries a message; here a failing call returns the message
    instead. Both types work with `:-`. */
module Wrappers {

  datatype Option<+T> = None | Some(value: T)

  /** The value of a call that returns something or throws. */
  datatype Result<+R, +E> = Success(value: R) | Failure(error: E) {
    predicate IsFailure() { Failure? }

    function PropagateFailure<U>(): Result<U, E>
      requires Failure?
    {
      Failure(error)
    }

    function Extract(): R
      requires Success?
    {
      value
    }
  }

  /** The value of a `void` call that may throw. */
  datatype Outcome<+E> = Pass | Fail(error: E) {
    predicate IsFailure() { Fail? }

    function PropagateFailure<U>(): Result<U, E>
      requires Fail?
    {
      Failure(error)
    }
  }
}
