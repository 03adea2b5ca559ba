/** Failure-compatible wrappers shared by the registry model and the map helpers. */
module Wrappers {

  /** An optional value: Go's "value, ok" pairs and nil-able arguments. */
  datatype Option<+T> = None | Some(value: T)

  /** A value or an error: Go's "(T, error)" return pairs. */
  datatype Result<+T, +E> = Success(value: T) | Failure(error: E)
}
