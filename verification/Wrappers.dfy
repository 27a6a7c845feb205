/** The result types shared by the modules of this project. */
module Wrappers {

  datatype Option<+T> = None | Some(value: T)

  datatype Result<+T, +E> = Ok(value: T) | Err(error: E)

  /** The outcome of a call whose source contains an assertion or an explicit
      panic: reaching it is a value here, so that it can be reasoned about. */
  datatype Outcome<+T, +E> = Done(value: T) | Failed(error: E) | Panicked
}
