/** Failure-carrying values used where the modelled code returns a null
    pointer or throws an exception. */
module Wrappers {

  datatype Option<T> = None | Some(value: T)

  /** A value or the error the source throws instead of returning it. */
  datatype Result<T, E> = Success(value: T) | Failure(error: E)

  /** The outcome of an operation that returns nothing but may throw. */
  datatype Outcome<E> = Pass | Fail(error: E)
}
