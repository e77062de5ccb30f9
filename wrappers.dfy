/** Option and Result: the error paths of the modelled program (a value that is
    absent, an exception that stops a command) as values. */
module Wrappers {

  datatype Option<+T> = None | Some(value: T)

  datatype Result<+T, +E> = Ok(value: T) | Err(error: E)
}
