/** Failure-carrying values shared by the model: a nullable reference or an
    exception-or-value outcome of a library call. */
module Common {

  /** A value that may be absent (a C# `null`). */
  datatype Option<+T> = None | Some(value: T)

  /** The outcome of a call that either returns a value or throws. */
  datatype Result<+T, +E> = Ok(value: T) | Err(error: E)
}
