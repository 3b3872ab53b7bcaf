/** Error signalling shared by the model: the exceptions the Python code raises
    become the `Err` case of a `Result`, and Python's `None` becomes `None`. */
module Wrappers {

  /** The Python exception classes raised by the modelled code. */
  datatype Error =
    | ValueError(message: string)
    | AssertionError(message: string)

  datatype Option<+T> = None | Some(value: T)

  datatype Result<+T> = Ok(value: T) | Err(error: Error)
}
