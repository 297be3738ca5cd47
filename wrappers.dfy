/** Failure-carrying values shared by every module: Go's `(value, error)` returns
    and nil-able errors. */
module Wrappers {

  /** A Go `error`: only its message is modelled. */
  datatype Error = Error(msg: string)

  datatype Option<+T> = None | Some(value: T)

  /** `(T, error)` with exactly one side meaningful. */
  datatype Result<+T> = Ok(value: T) | Err(error: Error)
}
