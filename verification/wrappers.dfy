/** Failure-compatible wrappers shared by the other modules. */
module Wrappers {

  /** An optional value; the source's `false`, `undefined` and empty slots. */
  datatype Option<+T> = None | Some(value: T)

  /** A value or the reason the source would not produce one. */
  datatype Result<+R, +E> = Success(value: R) | Failure(error: E) {

    predicate IsFailure() {
      Failure?
    }

    function PropagateFailure<U>(): Result<U, E>
      requires Failure?
    {
      Failure(error)
    }

    function Extract(): R
      requires Success?
    {
      value
    }
  }
}
