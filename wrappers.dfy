/** Option and Result values shared by the modules of this model. */
module Wrappers {

  /** A value that may be absent: a missing key, a lookup that found nothing. */
  datatype Option<+T> = None | Some(value: T)

  /** The outcome of an operation that either succeeds or raises an error. */
  datatype Result<+T, +E> = Ok(value: T) | Err(error: E)
}
