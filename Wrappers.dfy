/** Failure-compatible wrappers shared by the model: an optional value (a nullable
    reference or `Nullable<T>` in the source) and the outcome of an operation that
    may throw. */
module Wrappers {

  datatype Option<+T> = None | Some(value: T)

  datatype Result<+T, +E> = Success(value: T) | Failure(error: E)
}
