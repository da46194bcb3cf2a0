/** Failure-compatible result and option types shared by the model. */
module Results {

  datatype Option<+T> = None | Some(value: T)

  /** Either a value or the error that ended the computation (a thrown exception in the system). */
  datatype Result<+T, +E> = Success(value: T) | Failure(error: E) {

    predicate IsFailure() {
      Failure?
    }

    function PropagateFailure<U>(): Result<U, E>
      requires Failure?
    {
      Failure(error)
    }

    function Extract(): T
      requires Success?
    {
      value
    }
  }
}
