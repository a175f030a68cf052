/** Value types shared by every part of the model: bytes, optional values,
    and Go's `error` values. */
module Basics {

  /** One element of a Go `[]byte`. */
  newtype byte = b: int | 0 <= b < 256

  /** An optional value; `None` plays the role of Go's `nil` error. */
  datatype Option<+T> = None | Some(value: T)

  /** A value or the error that prevented computing it (Go's `(T, error)` pair
      where exactly one side is meaningful). */
  datatype Result<+T> = Ok(value: T) | Err(error: Error)

  /** A Go `error`. Errors are only ever created from a formatted message or
      passed along unchanged, so the message is all that identifies one. */
  datatype Error = Error(message: string)
}
