/** Option and Result, the two failure-carrying shapes the model uses. */
module Wrappers {

  /** A value that may be absent (JavaScript's `undefined` / `null`). */
  datatype Option<+T> = None | Some(value: T)

  /** Either a value or the error that a JavaScript call would have thrown. */
  datatype Result<+T> = Ok(value: T) | Err(error: string)
}
