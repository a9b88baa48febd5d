/** Outcomes of operations that can fail. */
module Wrappers {

  /** A lookup result: `None` where the program's search yields `None`. */
  datatype Option<+T> = None | Some(value: T)

  /** A value, or the error the program raises instead of returning one. */
  datatype Result<+T, +E> = Ok(value: T) | Err(error: E)
}
