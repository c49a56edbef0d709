/** Option and Result values shared by the modules of this model. */
module Wrappers {

  /** A value that may be absent (Python `None`, JavaScript `null`/`undefined`). */
  datatype Option<+T> = None | Some(value: T)

  /** The outcome of an operation that can be rejected with an error. */
  datatype Result<+T, +E> = Ok(value: T) | Err(error: E)
}
