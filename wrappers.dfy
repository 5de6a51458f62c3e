/** Option and Result datatypes shared by the scraper model. */
module Wrappers {

  /** A value that may be absent: a DOM query that found nothing, an attribute that is not set. */
  datatype Option<+T> = None | Some(value: T)

  /** The outcome of an operation that either produces a value or fails with an error. */
  datatype Result<+T, +E> = Success(value: T) | Failure(error: E)
}
