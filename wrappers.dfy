/** Option and Result, the two wrapper types the renderer uses for absent values and errors. */
module Wrappers {

  datatype Option<+T> = None | Some(value: T)

  /** A success value or an error message, as returned by the pipeline's fallible steps. */
  datatype Result<+R, +E> = Ok(value: R) | Err(error: E)
}
