/** Failure and absence as values, shared by every component. */
module Wrappers {

  datatype Option<+T> = None | Some(value: T)

  /** The members let `:-` pass a failure on. */
  datatype Result<+T, +E> = Success(value: T) | Failure(error: E) {
    predicate IsFailure() {
      Failure?
    }

    function PropagateFailure<U>(): Result<U, E>
      requires IsFailure()
    {
      Result<U, E>.Failure(error)
    }

    function Extract(): T
      requires !IsFailure()
    {
      value
    }
  }
}
