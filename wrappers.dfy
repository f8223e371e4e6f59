/** The success-or-error value that stands in for a Python function that
    either returns or raises. */
module Wrappers {

  datatype Result<+T, +E> = Ok(value: T) | Err(error: E)
}
