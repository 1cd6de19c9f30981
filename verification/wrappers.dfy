/** Failure-carrying result types shared by the model. */
module Wrappers {

  /** A value that may be absent: a missing row, a parse that did not succeed. */
  datatype Option<+T> = None | Some(value: T)

  /** A value or the error that replaced it; `:-` propagates the error. */
  datatype Result<+R, +E> = Success(value: R) | Failure(error: E) {

    predicate IsFailure() {
      Failure?
    }

    function PropagateFailure<U>(): Result<U, E>
      requires Failure?
    {
      Failure(error)
    }

    function Extract(): R
      requires Success?
    {
      value
    }
  }
}
