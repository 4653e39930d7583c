/** Values that may be absent, and the outcome of a step that may fail. */
module Wrappers {

  /** A JavaScript `T | null` (or an absent property): `None` is `null`/missing. */
  datatype Option<T> = None | Some(value: T)

  /** The outcome of an operation that either returns a value or throws an error. */
  datatype Result<T, E> = Success(value: T) | Failure(error: E)
}
