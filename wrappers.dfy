/** Optional values and call outcomes: Java's `Optional`/`null` and thrown exceptions. */
module Wrappers {

  /** A value that may be absent: `Optional.empty()` or a Java `null`. */
  datatype Option<+T> = None | Some(value: T)

  /** The outcome of an operation that either returns a value or throws an exception
      carrying a message (the message is what `getMessage()` yields). */
  datatype Result<+T> = Success(value: T) | Failure(message: string)
}
