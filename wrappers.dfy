/** Option and Result datatypes shared by the codec and the loops. */
module Wrappers {

  datatype Option<+T> = None | Some(value: T)

  /** The outcome of an operation that the source lets throw. */
  datatype Result<+T, +E> = Success(value: T) | Failure(error: E)
}
