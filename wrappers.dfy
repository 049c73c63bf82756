/** Option and Result, failure-compatible so that `:-` propagates a raised exception. */
module Wrappers {

  datatype Option<+T> = None | Some(value: T) {

    /** Python's `d.get(key, default)` once the lookup is done. */
    function GetOr(default: T): T {
      match this
      case Some(v) => v
      case None => default
    }
  }

  datatype Result<+R, +E> = Success(value: R) | Failure(error: E) {

    predicate IsFailure() {
      Failure?
    }

    function PropagateFailure<U>(): Result<U, E>
      requires Failure?
    {
      Failure(error)
    }

    function Extract(): R
      requires Success?
    {
      value
    }
  }
}
