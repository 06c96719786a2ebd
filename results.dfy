/** Option and Result, used for the pipeline's sentinel values and raised errors. */
module Results {

  datatype Option<+T> = None | Some(value: T)

  /** A value, or the error the Python code would raise instead. */
  datatype Result<+T, +E> = Success(value: T) | Failure(error: E)
}
