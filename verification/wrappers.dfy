/** An optional value and a value-or-error result, used across the model. */
module Wrappers {

  /** A value that may be absent; stands for a Java reference that may be null
      and for `Optional`. */
  datatype Option<+T> = None | Some(value: T)

  /** The outcome of an operation that may fail with an error of type `E`. */
  datatype Result<+R, +E> = Success(value: R) | Failure(error: E)
}
