/** Option and Result datatypes shared by the order and registration models. */
module Wrappers {

  /** A value that may be absent: a token that did or did not parse, say. */
  datatype Option<+T> = None | Some(value: T)

  /** The outcome of an operation that either succeeds with a value or fails
      with an error (the model of a thrown exception). */
  datatype Result<+R, +E> = Success(value: R) | Failure(error: E)
}
