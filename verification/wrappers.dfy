/** Failure-compatible wrapper types shared by the rest of the model. */
module Wrappers {

  /** A value that may be absent, used for parses that can fail. */
  datatype Option<+T> = None | Some(value: T)

  /** A value or an error, used for the fetch step whose failures end the run. */
  datatype Result<+R, +E> = Success(value: R) | Failure(error: E)
}
