/** Optional values and the outcome of a Java call that may throw. */
module Wrappers {

  /** A Java reference that may be null, or a session attribute that may be absent. */
  datatype Option<+T> = None | Some(value: T)

  /** A value, or the exception a Java call throws instead of returning one. */
  datatype Result<+T, +E> = Ok(value: T) | Err(error: E)
}
