/** Option and Result values used for the lookups and outcomes of the model. */
module Wrappers {

  datatype Option<+T> = None | Some(value: T)

  /** The outcome of an operation: a value, or the error it failed with. */
  datatype Result<+R, +E> = Success(value: R) | Failure(error: E)
}
