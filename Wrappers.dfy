/** Small failure-carrying datatypes shared by the modules of this model. */
module Wrappers {

  /** A value that may be absent: the model of a C# nullable reference (`T?`). */
  datatype Option<T> = None | Some(value: T)

  /** The outcome of an operation whose failure the source propagates as an exception. */
  datatype Result<T, E> = Ok(value: T) | Err(error: E)
}
