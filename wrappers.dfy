/** Stand-ins for Java's `null` results and thrown exceptions. */
module Wrappers {

  /** `None` plays the part of a Java `null`. */
  datatype Option<+T> = None | Some(value: T)

  /** `Err` plays the part of an exception leaving a Java method. */
  datatype Result<+T, +E> = Ok(value: T) | Err(error: E)

  /** The outcome of a Java `void` method: it returns normally or throws `error`. */
  datatype Outcome<+E> = Pass | Fail(error: E)
}
