/** Option and Result, the two failure-carrying shapes the model needs. */
module Wrappers {

  /** `caf::optional<T>`: an absent or present value. */
  datatype Option<+T> = None | Some(value: T)

  /** `caf::maybe<T>`: a value or an error code. */
  datatype Result<+T, +E> = Ok(value: T) | Err(error: E)
}
