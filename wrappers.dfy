/** Optional values and results shared by the modules of this model. */
module Wrappers {

  /** std::optional / migraphx::optional: a value or nothing. */
  datatype Option<T> = None | Some(value: T)

  /** A computed value, or the message of the exception the source would throw. */
  datatype Result<T> = Ok(value: T) | Err(message: string)

  /** An operation that returns nothing on success, or the message of the exception it throws. */
  datatype Outcome = Pass | Fail(message: string)
}
