/** Option and Result: absent values and the exceptions the JavaScript code throws. */
module Wrappers {

  datatype Option<+T> = None | Some(value: T)

  /** `Failure(msg)` stands for a thrown `Error` whose `message` is `msg`. */
  datatype Result<+R> = Success(value: R) | Failure(error: string)
}
