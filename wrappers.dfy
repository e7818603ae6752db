/** Optional values and results with an error, used in place of Java's null and exceptions. */
module Wrappers {

  /** A value that may be absent (Java's null reference). */
  datatype Option<+T> = None | Some(value: T)

  /** Either a normal result or the exception an operation throws. */
  datatype Result<+R, +E> = Ok(value: R) | Err(error: E)
}
