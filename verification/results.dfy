/** Failure-carrying values used across the model: a parse that may reject its
    input, and a computation that may stop with the error Python would raise. */
module Results {

  /** A value that may be missing. */
  datatype Option<+T> = None | Some(value: T)

  /** A value, or the error that ended the computation. Usable with `:-`. */
  datatype Result<+T, +E> = Ok(value: T) | Err(error: E) {

    predicate IsFailure() {
      Err?
    }

    function PropagateFailure<U>(): Result<U, E>
      requires Err?
    {
      Err(error)
    }

    function Extract(): T
      requires Ok?
    {
      value
    }
  }
}
