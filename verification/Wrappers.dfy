/** Option and Result, used where the modelled code returns nil, an error or a looked-up value. */
module Wrappers {
  datatype Option<+T> = None | Some(value: T)

  datatype Result<+T, +E> = Ok(value: T) | Err(error: E)
}
