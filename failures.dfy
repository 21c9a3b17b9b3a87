/** The two error kinds the core raises, and the results that carry them. */
module Failures {

  /** `std::out_of_range` from the container's bounds checks and
      `std::invalid_argument` from a figure's `read`. */
  datatype Error = OutOfRange | InvalidShape

  /** The result of an operation that returns nothing but may throw. */
  datatype Outcome = Pass | Fail(error: Error)

  /** The result of an operation that returns a value or throws. */
  datatype Result<+T> = Success(value: T) | Failure(error: Error)
}
