/** Failure-compatible wrappers shared by the whole model. */
module Wrappers {

  /** A value that may be missing. In the model `None` stands for Go's invalid
      `reflect.Value` (the "no value" sentinel) wherever a value may be absent. */
  datatype Option<+T> = None | Some(value: T)

  /** Either a value or an error; Go's `(value, error)` pairs. */
  datatype Result<+T, +E> = Ok(value: T) | Err(error: E)
}
