/** Optional values and success/failure results, the two shapes the command
    line front end needs: an unset option field, and an option scan that
    either yields options or stops the process with an error. */
module Wrappers {

  /** A value that may be absent (JavaScript's `undefined` for an optional field). */
  datatype Option<+T> = None | Some(value: T)

  /** The outcome of a computation that can fail with an error value. */
  datatype Result<+R, +E> = Ok(value: R) | Err(error: E)
}
