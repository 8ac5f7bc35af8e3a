/** Failure-carrying values shared by the models of both source files.
    A Python exception or a failed `assert` becomes a `Failure`; a value the
    floating-point code would turn into NaN becomes `None`. */
module Results {

  datatype Option<+T> = None | Some(value: T)

  datatype Result<+T, +E> = Success(value: T) | Failure(error: E) {
    predicate IsFailure() { Failure? }

    function PropagateFailure<U>(): Result<U, E>
      requires Failure?
    {
      Failure(error)
    }

    function Extract(): T
      requires Success?
    {
      value
    }
  }
}
