/** Result types shared by the models of the service handlers. */
module Wrappers {

  /** A nullable column or an optional request field. */
  datatype Option<+T> = None | Some(value: T)

  /** The outcome of a handler: its answer, or the exception it throws. */
  datatype Result<+T, +E> = Ok(value: T) | Err(error: E)
}
