/** `Option` for Python's `None`-or-value returns, `Result` for calls that
    either return a value or raise. */
module Wrappers {

  datatype Option<+T> = None | Some(value: T)

  datatype Result<+R, +E> = Ok(value: R) | Err(error: E)
}
