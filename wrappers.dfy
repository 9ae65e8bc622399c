/** Option and Result, the shapes used for the source's `None` values and
    for the assertion failures and exceptions it raises. */
module Wrappers {
  datatype Option<+T> = None | Some(value: T)

  datatype Result<+T, +E> = Ok(value: T) | Err(error: E)
}
