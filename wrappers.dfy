/** Option and Result, for the parsers of the model and for the error paths of the generator. */
module Wrappers {
  datatype Option<T> = None | Some(value: T)

  datatype Result<T, E> = Ok(value: T) | Err(error: E)
}
