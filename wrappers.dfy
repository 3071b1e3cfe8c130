/** Stand-ins for the source's `T | null` / `T | undefined` values and thrown errors. */
module Wrappers {

  /** A value that may be absent (`null` or `undefined` in the source). */
  datatype Option<+T> = None | Some(value: T)

  /** A value, or the message of the error the source throws instead. */
  datatype Result<+R, +E> = Success(value: R) | Failure(error: E)
}
