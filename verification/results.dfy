/** Failure-carrying wrappers shared by every module of the model. */
module Results {

  /** A value that may be absent. */
  datatype Option<+T> = None | Some(value: T)

  /**
   The outcome of an operation that either yields a value or reports an
   error; usable with `:-` to pass an error on, as Go's `if err != nil { return err }`.
   */
  datatype Result<+T, +E> = Success(value: T) | Failure(error: E) {

    predicate IsFailure() {
      Failure?
    }

    function PropagateFailure<U>(): Result<U, E>
      requires Failure?
    {
      Failure(error)
    }

    function Extract(): T
      requires Success?
    {
      value
    }
  }
}
