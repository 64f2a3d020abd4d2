/**
 * The errors the downloader sees or raises, and `TooManyRetriesException`,
 * the terminal rejection of the retry policy.
 */
module Throwables {

  import opened Wrappers

  datatype Throwable =
    | FileOpenError(path: string)          // `fopen` could not open the destination
    | ResponseError(status: int)           // the HTTP client's non-2xx `ResponseException`; its code is the status
    | TransportError(message: string)      // connection refused, timeout, DNS failure
    | StreamWriteError(message: string)    // the file stream failed while writing
    | TooManyRetries(exception: TooManyRetriesException)

  /**
   * The exception's state: message and code as passed, the collected exceptions
   * as passed, and `previous`, which the constructor takes from the last element
   * of the array (PHP reads key `count - 1`; on an empty array that key is
   * missing and `null` is passed on, so `previous` is `None`).
   */
  datatype TooManyRetriesException = TooManyRetriesException(
    message: string,
    code: int,
    exceptions: seq<Throwable>,
    previous: Option<Throwable>)

  /** `new TooManyRetriesException($message = '', $code = 0, $exceptions = [])`. */
  function NewTooManyRetriesException(message: string := "", code: int := 0, exceptions: seq<Throwable> := []):
    (e: TooManyRetriesException)
    ensures e.message == message && e.code == code && e.exceptions == exceptions
    ensures exceptions != [] ==> e.previous == Some(exceptions[|exceptions| - 1])
    ensures exceptions == [] ==> e.previous == None
  {
    TooManyRetriesException(message, code, exceptions,
      if exceptions == [] then None else Some(exceptions[|exceptions| - 1]))
  }

  /** Omitting the code stores 0; the collected exceptions keep their order. */
  lemma CodeDefaultsToZero(message: string, exceptions: seq<Throwable>)
    ensures NewTooManyRetriesException(message, exceptions := exceptions).code == 0
    ensures NewTooManyRetriesException(message, exceptions := exceptions).exceptions == exceptions
  {
  }
}
