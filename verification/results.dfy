/**
 Failure-compatible wrappers shared by the whole model: `Option` for the
 nullable values of the application (Python `None`), and `Result` for
 operations that either return a value or raise an exception.
 */
module Results {

  datatype Option<+T> = None | Some(value: T)

  /** A value or the exception the Python code raises instead. */
  datatype Result<+T, +E> = Ok(value: T) | Err(error: E) {

    predicate IsFailure() {
      Err?
    }

    function PropagateFailure<U>(): Result<U, E>
      requires Err?
    {
      Err(error)
    }

    function Extract(): T
      requires Ok?
    {
      value
    }
  }
}
