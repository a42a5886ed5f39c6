/** The wrappers every module shares: an optional value and a value-or-error
    result (Go's `(T, error)` pair). Errors are checked and returned
    explicitly, as in Go. */
module Wrappers {

  datatype Option<+T> = None | Some(value: T)

  datatype Result<+T, +E> = Ok(value: T) | Err(error: E)
}
