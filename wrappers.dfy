/** Optional values and results with an error, used for Python's None and raised exceptions. */
module Wrappers {

  datatype Option<+T> = None | Some(value: T) {
    /** Python's `x if x is not None else default`. */
    function GetOr(default: T): T {
      match this
      case Some(v) => v
      case None => default
    }
  }

  datatype Result<+T, +E> = Success(value: T) | Failure(error: E)

  /** The exceptions the pipeline lets escape, one constructor per cause. */
  datatype Error =
    | Transport(detail: string)      // requests.RequestException, ET.ParseError, OpenAI errors
    | EmptyMethodsText               // the ValueError for a missing or empty methods text
    | CorruptCacheEntry(key: string) // TypeError from Article(**cached) / Protocol(**cached)
    | MalformedResponse              // TypeError or AttributeError: a reply's JSON has the wrong shape
}
