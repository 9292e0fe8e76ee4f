/** Small failure-carrying datatypes shared by the other modules. */
module Wrappers {

  /** A value that may be missing (JavaScript null / undefined where only one of them matters). */
  datatype Option<T> = None | Some(value: T)

  /** The outcome of a JavaScript operation that either returns a value or throws a TypeError. */
  datatype Result<T> = Ok(value: T) | TypeError
}
