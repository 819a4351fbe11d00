/** Option and Result values used for JavaScript's `null` and thrown errors. */
module Wrappers {

  datatype Option<+T> = None | Some(value: T)

  /** `Failure` carries the `message` of a thrown `Error`. */
  datatype Result<+R> = Success(value: R) | Failure(message: string)
}
