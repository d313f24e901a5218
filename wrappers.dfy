/** Optional and failure-carrying values shared by the whole model. */
module Wrappers {

  /** A value that may be absent (JavaScript `undefined`). */
  datatype Option<+T> = None | Some(value: T)

  /** The outcome of an operation that may throw: the thrown error is kept
      as its message. */
  datatype Result<+T> = Ok(value: T) | Err(message: string)
}
