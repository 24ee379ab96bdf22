/** Failure-compatible wrappers used across the model: an optional value
    and a value-or-error result. Python's `None` and raised exceptions are
    mapped onto these. */
module Results {

  /** An optional value, as `os.getenv` returns one. */
  datatype Option<+T> = None | Some(value: T)

  /** A computed value, or the error a Python call would have raised. */
  datatype Result<+R, +E> = Success(value: R) | Failure(error: E) {

    predicate IsFailure() {
      Failure?
    }

    function PropagateFailure<U>(): Result<U, E>
      requires Failure?
    {
      Failure(error)
    }

    function Extract(): R
      requires Success?
    {
      value
    }
  }
}
