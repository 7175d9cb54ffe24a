/** Optional values and success/failure results, used for Python's `None`
    and for the exceptions the script raises and catches. */
module Wrappers {

  /** A value that may be absent (Python's `None`, or a missing dict key). */
  datatype Option<+T> = None | Some(value: T)

  /** The outcome of an operation that either returns a value or raises. */
  datatype Result<+R, +E> = Success(value: R) | Failure(error: E)
}
