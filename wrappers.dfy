/** Small option and result types shared by the two modules of the model. */
module Wrappers {

  /** A value that may be absent (TypeScript's `T | null`). */
  datatype Option<+T> = None | Some(value: T)

  /** The outcome of an operation that may throw: a value, or the thrown error's message. */
  datatype Result<+T, +E> = Ok(value: T) | Err(error: E)
}
