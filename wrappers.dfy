/** Optional values and error-carrying results, shared by every module of the model. */
module Wrappers {

  /** A value that may be absent: an unset Mongoose field, an omitted request field. */
  datatype Option<+T> = None | Some(value: T)

  /** The outcome of an operation that can be rejected, such as saving a document. */
  datatype Result<+R, +E> = Success(value: R) | Failure(error: E)
}
