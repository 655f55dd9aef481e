/** The two result shapes shared by every part of the model. */
module Wrappers {

  /** A value that may be absent: JavaScript `null`/`undefined`, Python `None`. */
  datatype Option<T> = None | Some(value: T)

  /** The outcome of an operation that may raise or throw instead of returning. */
  datatype Result<T, E> = Ok(value: T) | Err(error: E)
}
