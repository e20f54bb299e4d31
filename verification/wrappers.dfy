/** Option and Result, the two failure-carrying types the conversion layer is written in.
    `Result` is failure-compatible, so `var x :- e; ...` propagates the first failure the
    way the `?` operator does. */
module Wrappers {

  datatype Option<+T> = None | Some(value: T) {

    /** Turns an absent value into a failure carrying `error`. */
    function ToResult<E>(error: E): Result<T, E> {
      match this
      case Some(v) => Success(v)
      case None => Failure(error)
    }
  }

  datatype Result<+T, +E> = Success(value: T) | Failure(error: E) {

    predicate IsFailure() {
      Failure?
    }

    function PropagateFailure<U>(): Result<U, E>
      requires Failure?
    {
      Failure(error)
    }

    function Extract(): T
      requires Success?
    {
      value
    }
  }
}
