/** Option and Result, the value wrappers the rest of the model uses. */
module Wrappers {

  /** A value that may be absent, such as a member missing from a JavaScript object (`undefined`). */
  datatype Option<T> = None | Some(value: T)

  /** The outcome of an operation that either returns a value or throws an `Error` with a message. */
  datatype Result<T> = Ok(value: T) | Err(message: string)
}
