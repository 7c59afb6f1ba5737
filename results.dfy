/** Outcomes of the service's handlers: a value or the HTTP error the handler raises. */
module Results {

  datatype Option<+T> = None | Some(value: T)

  /** Why an uncaught Python exception ends a request (the framework answers 500). */
  datatype Crash =
    | DivisionByZero    // frame_count / fps with fps == 0
    | IndexOutOfRange   // filenames[0] on an empty merge request
    | FileMissing       // the file of a download no longer exists when the response is sent

  /** The errors a handler raises, one constructor per kind of error. */
  datatype Failure =
    | MissingToken
    | InvalidToken
    | FileTooLarge(limit: int)
    | InvalidVideoFile
    | DurationNotAllowed(minSec: real, maxSec: real)
    | InvalidVideo(videoId: string)
    | VideoNotFound(videoId: string)
    | LinkNotFound(linkId: string)
    | LinkExpired(linkId: string, expiresAt: int)
    | Internal(cause: Crash)

  /** The HTTP status code the caller sees for each failure. */
  function Status(f: Failure): int
  {
    match f
    case MissingToken | InvalidToken => 401
    case FileTooLarge(_) | InvalidVideoFile | DurationNotAllowed(_, _) | InvalidVideo(_) => 400
    case VideoNotFound(_) | LinkNotFound(_) => 404
    case LinkExpired(_, _) => 410
    case Internal(_) => 500
  }

  datatype Result<+T> = Ok(value: T) | Err(error: Failure)
}
