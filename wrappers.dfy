/** Failure-compatible wrappers used across the model. */
module Wrappers {

  /** A value that may be absent: Java's nullable references. */
  datatype Option<+T> = None | Some(value: T)

  /** A value or an error: Mojang's DataResult. */
  datatype Result<+T, +E> = Success(value: T) | Failure(error: E)
}
