/** Values standing in for JavaScript's `undefined` and for settled promises. */
module Outcomes {

  /** A value that may be `undefined`. */
  datatype Option<+T> = None | Some(value: T)

  /** How a channel call settles: resolved with a value, or rejected (or thrown) with an error. */
  datatype Result<+T, +E> = Ok(value: T) | Err(error: E)
}
