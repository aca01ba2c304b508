/** Optional values (JavaScript's `undefined`) and the outcome of a form handler. */
module Wrappers {

  /** A value that may be absent; `None` stands for JavaScript's `undefined`. */
  datatype Option<T> = None | Some(value: T)

  /** A handler's result: either the payload it hands on, or the error toast it shows. */
  datatype Result<T> = Success(value: T) | Failure(error: string)

  /** A handler that only reports success or an error toast. */
  datatype Outcome = Pass | Fail(message: string)
}
