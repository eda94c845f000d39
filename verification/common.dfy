/** Failure-carrying wrappers shared by the recognizer and the configuration editor. */
module Common {

  /** A value that may be absent: the model of a C# reference that may be null,
      or of a native call that may throw. */
  datatype Option<+T> = None | Some(value: T)

  /** The outcome of an operation that may raise an exception instead of returning. */
  datatype Result<+T, +E> = Ok(value: T) | Err(error: E)
}
