/** Option and Result values shared by the modules of this model. */
module Wrappers {

  /** A value that may be absent, standing for a nullable column or attribute. */
  datatype Option<+T> = None | Some(value: T)

  /** The outcome of an operation that can fail with an error of type E. */
  datatype Result<+T, +E> = Ok(value: T) | Err(error: E)
}
