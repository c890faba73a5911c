/** Option and Result datatypes used by the request handlers. */
module Wrappers {

  /** A value that may be absent: a JSON field that was not sent. */
  datatype Option<+T> = None | Some(value: T)

  /** The outcome of a handler: a response body or an error. */
  datatype Result<+R, +E> = Success(value: R) | Failure(error: E)
}
