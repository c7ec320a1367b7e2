/** Optional values and results shared by the backend and front-end models. */
module Wrappers {

  /** A value that may be absent (Python's None, JavaScript's null/undefined). */
  datatype Option<T> = None | Some(value: T)

  /** The outcome of an operation that can fail with an error of type E. */
  datatype Result<T, E> = Ok(value: T) | Err(error: E)
}
