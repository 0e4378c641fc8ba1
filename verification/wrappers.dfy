/** Failure-compatible wrappers used throughout the model:
    - Option<T> for Go's nil-able pointer and map fields,
    - Result<R, E> for a computation that yields a value or an error,
    - Outcome<E> for a computation whose only result is success or an error.
 */
module Wrappers {

  datatype Option<+T> = None | Some(value: T)

  datatype Result<+R, +E> = Success(value: R) | Failure(error: E)

  datatype Outcome<+E> = Pass | Fail(error: E)
}
