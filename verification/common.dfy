/** Small failure-carrying datatypes shared by the dataset and model modules. */
module Common {

  /** A value that may be absent: the model's stand-in for Python's `None`. */
  datatype Option<+T> = None | Some(value: T)

  /** Either a computed value or the error that the Python code would raise. */
  datatype Result<+T, +E> = Success(value: T) | Failure(error: E)
}
