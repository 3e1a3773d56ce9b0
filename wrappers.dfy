/** Option and Result values shared by the persistence modules. */
module Wrappers {

  /** An optional value: a Go pointer that may be nil. */
  datatype Option<+T> = None | Some(value: T)

  /** The outcome of a storage call: a value, or the error the driver reports. */
  datatype Result<+R, +E> = Success(value: R) | Failure(error: E)
}
