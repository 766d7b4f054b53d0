/** What the other modules share: the two failure-carrying datatypes, bytes, and the default workspace. */
module Wrappers {

  datatype Option<+T> = None | Some(value: T)

  datatype Result<+T, +E> = Ok(value: T) | Err(error: E)

  newtype byte = x: int | 0 <= x < 256

  /** The workspace that always exists and cannot be removed. */
  const DEFAULT_SLUG := "default"
}
