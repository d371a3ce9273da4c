/** Optional values and failure-carrying results, shared by the backend and frontend models. */
module Wrappers {

  datatype Option<+T> = None | Some(value: T)

  /** The outcome of a computation that may raise: the value, or the exception it raises. */
  datatype Result<+T> = Ok(value: T) | Raised(exception: string)
}
