/** Failure-carrying result types shared by the encoder and the decoder. */
module Wrappers {

  datatype Option<T> = None | Some(value: T)

  /** `Err` stands for an exception the Python code would raise. */
  datatype Result<T, E> = Ok(value: T) | Err(error: E)
}
