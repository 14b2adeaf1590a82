/** Optional values and results with an error, used where the program relies on
    JavaScript's null/undefined or on a thrown exception. */
module Wrappers {

  datatype Option<+T> = None | Some(value: T)

  datatype Result<+T, +E> = Success(value: T) | Failure(error: E)
}
