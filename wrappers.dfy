/** Failure-carrying values shared by the modules of the model. */
module Wrappers {

  /** A value that may be absent: a JavaScript `undefined` / `null` / missing map key. */
  datatype Option<+T> = None | Some(value: T)

  /** The outcome of an operation that either completes or rejects (throws). */
  datatype Result<+T, +E> = Ok(value: T) | Err(error: E)
}
