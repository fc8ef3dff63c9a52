/** Option, Result and Outcome: the model's stand-ins for a Java reference that may be
    null, for a call that returns a value or throws, and for a void call that may throw. */
module Wrappers {

  /** A nullable reference: `None` is Java's `null`. */
  datatype Option<+T> = None | Some(value: T)

  /** The outcome of a call that returns a value or throws an exception. */
  datatype Result<+T, +E> = Ok(value: T) | Err(error: E)

  /** The outcome of a `void` call: it returns normally or throws. */
  datatype Outcome<+E> = Pass | Fail(error: E)
}
