/** The exceptions the core raises, folded into one error datatype, and the
    failure-carrying wrappers the operations return instead of raising. */
module Exceptions {

  /** Every error an operation of the core can raise.  The first four are the
      package's own exception classes; the rest are the Python built-in
      exceptions the core lets escape. */
  datatype Error =
    | ServerRunning           // ServerRunningException
    | ServerNotInstalled      // ServerNotInstalledException
    | UnsupportedVersion      // UnsupportedVersionException
    | FileNotFound            // FileNotFoundError: server.jar is absent
    | ValueError(text: string) // int() or tuple unpacking rejected its input
    | KeyError(key: string)   // dict.pop of an absent key
    | IndexError              // [0] of an empty list
    | AttributeError          // attribute access on None

  datatype Option<T> = None | Some(value: T) {
    function GetOr(default: T): T {
      match this
      case Some(v) => v
      case None => default
    }
  }

  datatype Result<T> = Ok(value: T) | Err(error: Error) {
    predicate IsFailure() { Err? }
    function PropagateFailure<U>(): Result<U>
      requires Err?
    {
      Err(error)
    }
    function Extract(): T
      requires Ok?
    {
      value
    }
  }

  /** The result of an operation that returns nothing but may raise. */
  datatype Outcome = Done | Fail(error: Error)
}
