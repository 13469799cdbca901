/** Errors seen by the network retry controller and their classification. */
module NetworkErrors {

  /** Largest value of a Kotlin `Int`. */
  const INT_MAX: int := 0x7fff_ffff

  /** The throwables the controller can observe. A `TimeoutException` or an
      `IOException` stands for that class or any subclass of it (a Kotlin `is`
      test accepts subclasses); `className` names the concrete class. */
  datatype Throwable =
    | TimeoutException(className: string)
    | IOException(className: string)
      /** raised by `firstOrError` on a stream that completes without a match */
    | NoSuchElementException
      /** payload of `TooManyAttemptsException`: the configured maximum and the
          last underlying error, kept as the exception's cause */
    | TooManyAttemptsException(maxAttempts: int, cause: Throwable)
      /** any class outside the two network hierarchies */
    | OtherThrowable(className: string)

  /** `isNetworkError`: a timeout or an I/O failure. */
  predicate IsNetworkError(error: Throwable)
  {
    error.TimeoutException? || error.IOException?
  }
}
