/** Failure-carrying values shared by the other modules. */
module Wrappers {

  /** A present value or nothing: Java's nullable references. */
  datatype Option<+T> = None | Some(value: T)

  /** Success, or a failure that carries the thrown condition. */
  datatype Outcome<+E> = Pass | Fail(error: E)

  /** A value, or the condition that prevented computing it. */
  datatype Result<+R, +E> = Ok(value: R) | Err(error: E)
}
