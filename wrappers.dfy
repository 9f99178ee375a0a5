/** Failure-carrying results used for the PHP exceptions of the model. */
module Wrappers {

  datatype Option<+T> = None | Some(value: T)

  /** A value, or the error an exception would have carried. */
  datatype Result<+T, +E> = Success(value: T) | Failure(error: E)

  /** The outcome of an operation that returns nothing but may throw. */
  datatype Outcome<+E> = Pass | Fail(error: E)
}

/** The exception codes of BootstrapSmarty_Exception and StMarksSmarty_Exception. */
module Errors {

  datatype ErrorCode =
    | Singleton            // a second instance of the singleton was requested
    | UnreadableDirectory  // a directory that must be readable is not
    | UnwritableDirectory  // a directory that must be writable is not
    | MissingFiles         // a directory that should have existed had to be created
    | NotAUrl              // a stylesheet argument is not a URL string

  /** The numeric exception code thrown for each kind. */
  function Code(e: ErrorCode): (c: int)
    ensures 1 <= c <= 5
    ensures (c == 1) == e.Singleton? && (c == 2) == e.UnreadableDirectory?
    ensures (c == 3) == e.UnwritableDirectory? && (c == 4) == e.MissingFiles?
    ensures (c == 5) == e.NotAUrl?
  {
    match e
    case Singleton => 1
    case UnreadableDirectory => 2
    case UnwritableDirectory => 3
    case MissingFiles => 4
    case NotAUrl => 5
  }

  /** Different kinds carry different codes, so a catcher can tell them apart. */
  lemma CodeInjective(e: ErrorCode, f: ErrorCode)
    requires Code(e) == Code(f)
    ensures e == f
  {
  }
}
