/** Result types shared by the models of the control plane's services. */
module Wrappers {

  /** A value that may be absent: Python's `None`, or a refusal whose code is not modelled. */
  datatype Option<+T> = None | Some(value: T)

  /** An operation either returns a value or raises a typed error. */
  datatype Result<+T, +E> = Ok(value: T) | Err(error: E)
}
