/** The two result shapes the modules share. */
module Wrappers {
  /** A value that may be absent: the source's `null`, `undefined` or missing field. */
  datatype Option<+T> = None | Some(value: T)

  /** A returned value, or the error the source throws instead. */
  datatype Result<+T, +E> = Ok(value: T) | Refused(error: E)
}
