/** Failure-carrying values shared by the client and server models. */
module Outcomes {

  /** A value that may be absent: Go's `nil` error or a missing result. */
  datatype Option<+T> = None | Some(value: T)

  /** A successful value or an error, as Go's `(value, error)` pairs are used. */
  datatype Result<+T, +E> = Ok(value: T) | Err(error: E)
}
