/** Stand-ins for Java's nullable references and for operations that can throw. */
module Wrappers {

  /** `None` plays the part of a Java `null` reference. */
  datatype Option<+T> = None | Some(value: T)

  /** `Err` plays the part of an exception that aborts the whole compilation. */
  datatype Result<+T, +E> = Ok(value: T) | Err(error: E)
}
