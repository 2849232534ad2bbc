/** Option, result and promise-state types shared by the other modules. */
module Wrappers {

  /** A value that may be absent: JavaScript's `null` / `undefined` next to a real value. */
  datatype Option<+T> = None | Some(value: T)

  /** The outcome of an operation that may throw: a value, or the error it rejects with. */
  datatype Result<+R, +E> = Success(value: R) | Failure(error: E)

  /** A JavaScript `Error`: its `code` (empty when it has none) and its message. */
  datatype Error = Error(code: string, message: string)

  /** The state of a JavaScript promise: pending, fulfilled with a value, or rejected with an error. */
  datatype Settled<+T> = Pending | Fulfilled(value: T) | Rejected(error: Error)
}
