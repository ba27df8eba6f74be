/** Go's `error` values and the optional/fallible results the resolver passes around. */
module Wrappers {

  /** A value that may be absent; `None` plays the role of a nil `error`. */
  datatype Option<+T> = None | Some(value: T)

  /** A Go `error`: all the resolver ever does with one is return it or compare its text. */
  datatype Error = Error(message: string)

  /** The `(value, error)` pair a Go call returns, with exactly one half meaningful. */
  datatype Result<+T> = Success(value: T) | Failure(error: Error)
}
