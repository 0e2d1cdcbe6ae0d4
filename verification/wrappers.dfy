/** Option and Result values used by every handler of the model. */
module Wrappers {

  /** A value that may be missing, such as a nullable column. */
  datatype Option<+T> = None | Some(value: T)

  /** The outcome of an atomic handler: the committed value, or the reason it rolled back. */
  datatype Result<+T, +E> = Ok(value: T) | Err(error: E)
}
