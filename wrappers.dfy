/** Option and Result, the two wrappers the model uses. */
module Wrappers {

  /** A nullable column or an absent value. */
  datatype Option<+T> = None | Some(value: T)

  /** The outcome of a write that may be refused by the database. */
  datatype Result<+T, +E> = Ok(value: T) | Err(error: E)
}
