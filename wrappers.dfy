/** Option and Result, the failure-carrying values used across the model. */
module Wrappers {

  /** A value that may be missing (Java `null`, a pandas NA). */
  datatype Option<+T> = None | Some(value: T)

  /** Either a value or the exception that was raised instead; usable with `:-`. */
  datatype Result<+T, +E> = Success(value: T) | Failure(error: E) {

    predicate IsFailure() {
      Failure?
    }

    function PropagateFailure<U>(): Result<U, E>
      requires Failure?
    {
      Failure(error)
    }

    function Extract(): T
      requires Success?
    {
      value
    }
  }
}
