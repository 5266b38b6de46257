/** Optional values and results, standing for `undefined` and for thrown errors. */
module Wrappers {

  /** `None` is JavaScript's `undefined` (or `NaN` where a number is expected). */
  datatype Option<T> = None | Some(value: T)

  /** `Failure` is a thrown `Error`. */
  datatype Result<T, E> = Success(value: T) | Failure(error: E)
}
