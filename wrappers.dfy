/** Optional values and outcomes, standing for Java's nullable references, `Optional` and exceptions. */
module Wrappers {
  datatype Option<T> = None | Some(value: T)

  datatype Result<T, E> = Success(value: T) | Failure(error: E)
}
