/** The optional value used throughout the model for Python's `None`, for a
    missing dictionary key and for a JavaScript `undefined`, and the result
    of an operation that may raise. */
module Wrappers {

  datatype Option<+T> = None | Some(value: T) {

    /** The value held in Some, or `default` for None. */
    function GetOr(default: T): T {
      match this
      case Some(v) => v
      case None => default
    }
  }

  /** The kinds of exception the modelled code raises or lets escape. */
  datatype PyError =
    | ValueError
    | TypeError
    | AttributeError
    | KeyError
    | IndexError
    | NotImplementedError
    | IOError
    | PathUnfitError
    | CalledProcessError(returncode: int, cmd: seq<string>)
    | GenericException(message: string)
    /** `ges.py`'s exception for a static content folder without
        `favicon.ico`, whose message quotes the folder. */
    | StaticContentMissing(path: string)

  /** A value, or the exception raised instead of producing it. */
  datatype Result<+T> = Ok(value: T) | Err(error: PyError)
}
