/** Optional values and results with an error, shared by the models below. */
module Options {

  /** Rust's `Option<T>`. */
  datatype Option<T> = None | Some(value: T)

  /** A computation that either produces a value or stops with an error;
      `:-` propagates the error. */
  datatype Result<T, E> = Success(value: T) | Failure(error: E)
  {
    predicate IsFailure()
    {
      Failure?
    }

    function PropagateFailure<U>(): Result<U, E>
      requires Failure?
    {
      Failure(error)
    }

    function Extract(): T
      requires Success?
    {
      value
    }
  }
}
