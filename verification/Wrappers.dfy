/** Optional values and outcomes that may be refused. */
module Wrappers {
  datatype Option<+T> = None | Some(value: T)

  /** `Failure` stands for a thrown error or an error return. */
  datatype Result<+T, +E> = Success(value: T) | Failure(error: E)
}
