/** Option and Result: `undefined`/`null` values and error replies of the handlers. */
module Wrappers {
  datatype Option<+T> = None | Some(value: T)

  datatype Result<+T, +E> = Ok(value: T) | Err(error: E)
}
