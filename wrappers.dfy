/** Option and Result, for the source's null references and exceptions. */
module Wrappers {

  /** `None` stands for a Java `null`. */
  datatype Option<+T> = None | Some(value: T)

  /** `Err` stands for an exception the source throws instead of returning. */
  datatype Result<+T, +E> = Ok(value: T) | Err(error: E)
}
