/** Failure-carrying values shared by the other modules. */
module Results {

  /** A value that may be absent (JavaScript's `undefined` / `null`). */
  datatype Option<+T> = None | Some(value: T)

  /** The outcome of an operation that either returns a value or throws an
      `Error`; only the error's `message` is observable, so that is all an
      `Err` carries. */
  datatype Result<+T> = Ok(value: T) | Err(message: string)
}
