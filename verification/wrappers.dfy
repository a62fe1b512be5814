/** An optional value, and a value or an error, as used by the binder model. */
module Wrappers {

  /** A value that may be absent; stands for a Java reference that may be null. */
  datatype Option<+T> = None | Some(value: T)

  /** Either a value or the error that a Java method would have thrown instead. */
  datatype Result<+T, +E> = Success(value: T) | Failure(error: E)
}
