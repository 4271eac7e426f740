/** The single error kind of the container library, and the result types
    that carry it in place of C++ exceptions. */
module Errors {

  /** `std::out_of_range`: the only exception the grid and its rows raise. */
  datatype Error = OutOfRange

  /** A value, or the error that was thrown instead of producing it. */
  datatype Result<+T> = Ok(value: T) | Err(error: Error)

  /** Success of an operation that produces no value. */
  datatype Outcome = Pass | Fail(error: Error)
}
