/** Success/failure values used for the error paths of the pipeline. */
module Wrappers {

  /** A value that may be absent: Python's `None` or a raised exception. */
  datatype Option<T> = None | Some(value: T)

  /** The outcome of a step that may stop with an error instead of a value. */
  datatype Result<T, E> = Success(value: T) | Failure(error: E)
}
