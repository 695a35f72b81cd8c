/** Option and Result values standing for Python's `None` and for raised exceptions. */
module Wrappers {

  datatype Option<+T> = None | Some(value: T)

  /** `Failure` carries the exception the Python code would raise. */
  datatype Result<+T, +E> = Success(value: T) | Failure(error: E)
}
