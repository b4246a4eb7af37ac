/** Failure-compatible wrappers used across the broker model. */
module Wrappers {

  /** A value that may be absent: a JavaScript `undefined` field or a failed lookup. */
  datatype Option<+T> = None | Some(value: T)

  /** Either a value or an error, the model of an HTTP handler that can answer 404 or 400. */
  datatype Result<+R, +E> = Success(value: R) | Failure(error: E)
}
