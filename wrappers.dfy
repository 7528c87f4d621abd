/** Option and Result, the failure-compatible wrappers the model uses for the
    source's `undefined` results and for Effect's typed error channel. */
module Wrappers {

  datatype Option<+T> = None | Some(value: T)

  /** `Effect<T, E>` once it has run: a value or a typed error. */
  datatype Result<+T, +E> = Success(value: T) | Failure(error: E) {

    predicate IsFailure() {
      Failure?
    }

    function PropagateFailure<U>(): Result<U, E>
      requires Failure?
    {
      Failure(error)
    }

    function Extract(): T
      requires Success?
    {
      value
    }
  }
}
