/** Option for Java's nullable references, Result for a call that may throw. */
module Wrappers {

  /** `None` stands for Java's `null`. */
  datatype Option<+T> = None | Some(value: T)

  /** `Failure` carries the message of the exception the Java code throws. */
  datatype Result<+T> = Success(value: T) | Failure(error: string)
}
