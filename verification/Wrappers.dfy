/** Result types shared by the modules of this project. */
module Wrappers {

  datatype Option<+T> = None | Some(value: T)

  /** A transaction either commits with a value or raises an error and is rolled back. */
  datatype Result<+T, +E> = Ok(value: T) | Err(error: E)

  /** A configured length of time: reading the configuration refuses anything but a positive integer. */
  type Period = n: nat | n > 0 witness 1
}
