/** Option and Result: the absent value and the raised error of the Ruby source made explicit. */
module Wrappers {
  datatype Option<+T> = None | Some(value: T)

  datatype Result<+T, +E> = Ok(value: T) | Err(error: E)
}
