/** Option and Result values for the places where the handler's code can
    yield "nothing" (undefined, null, NaN) or raise an exception. */
module Wrappers {

  datatype Option<+T> = None | Some(value: T)

  /** `Failure` carries the message of an exception that escapes. */
  datatype Result<+T, +E> = Success(value: T) | Failure(error: E)
}
