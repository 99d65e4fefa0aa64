/** Option and Result wrappers used throughout the model in place of Java's
    `null` returns and thrown exceptions. */
module Results {

  /** A value that may be absent (Java's `null`). */
  datatype Option<+T> = None | Some(value: T)

  /** Either a value or the failure that the Java code would throw. */
  datatype Result<+T, +E> = Ok(value: T) | Err(error: E)
}

/** The exceptions of SQLRunner that escape a call, as data. */
module Failures {

  datatype Failure =
    /** IllegalArgumentException("invalid mode: ...; must be t, h or s") */
    | InvalidMode(arg: string)
    /** IllegalArgumentException("\\m needs output mode arg") */
    | MissingModeArgument
    /** IllegalArgumentException("\\o needs output file arg") */
    | MissingFileArgument
    /** IllegalArgumentException("Unknown escape: " + str) */
    | UnknownEscape(text: string)
    /** IOException from opening the redirect target */
    | CannotOpen(path: string)
    /** StringIndexOutOfBoundsException from substring(0, -1) in getStatement */
    | StatementIndexOutOfRange
    /** SQLException rethrown by runStatement in debug mode */
    | SqlException(message: string)
}
