/** Option and Result types shared by the other modules. */
module Wrappers {
  /** A value that may be absent: a JSON field that is missing or `null`. */
  datatype Option<T> = None | Some(value: T)

  /** The outcome of a step that can fail with an error of type `E`. */
  datatype Result<T, E> = Success(value: T) | Failure(error: E)
}
