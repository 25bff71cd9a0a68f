/** Optional values and the failures the coordinator's operations raise.
    Java's `null` arguments become `None`, and each exception the code throws
    becomes an `Err` carrying the kind of exception. */
module Errors {

  /** A value that may be absent (a Java reference that may be null). */
  datatype Option<+T> = None | Some(value: T)

  /** The exceptions the modelled code raises. */
  datatype Error =
    | IllegalArgument     // IllegalArgumentException: a required argument is null
    | InvalidFrequency    // InvalidFrequencyException: the equipment cannot tune to the frequency
    | NullReference       // NullPointerException: a field read through a null reference
    | NoSuchElement       // NoSuchElementException: the minimum of an empty set
    | ArithmeticError     // ArithmeticException: remainder by a zero tuning accuracy
    | IndexOutOfBounds    // IndexOutOfBoundsException: removing from an empty list

  /** Either a value or the exception that was raised instead. */
  datatype Result<+T> = Ok(value: T) | Err(error: Error)
}
