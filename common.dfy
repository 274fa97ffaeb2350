/** Shared vocabulary of the GigFlow marketplace model: document ids, optional
    values, the API error kinds the controllers throw and the result of an
    operation that either succeeds with a value or fails with such an error. */
module Common {

  /** Document ids. The store hands them out from one counter in creation
      order, so a larger id means a more recently created document. */
  type Id = nat

  datatype Option<+T> = None | Some(value: T) {
    function GetOr(default: T): T {
      match this
      case Some(v) => v
      case None => default
    }
  }

  /** The error kinds of the API (the status-code table of the utilities), plus
      the 500 that an unclassified error ends up as. */
  datatype ErrorKind = BadRequest | Unauthorized | Forbidden | NotFound | Conflict | Internal

  /** HTTP status of each error kind. */
  function StatusCode(kind: ErrorKind): (code: int)
    ensures 400 <= code < 600
    ensures code < 500 <==> !kind.Internal?
  {
    match kind
    case BadRequest => 400
    case Unauthorized => 401
    case Forbidden => 403
    case NotFound => 404
    case Conflict => 409
    case Internal => 500
  }

  /** An error thrown by a controller or middleware: its kind and its message. */
  datatype ApiError = ApiError(kind: ErrorKind, message: string)

  datatype Result<+T> = Ok(value: T) | Err(error: ApiError)

  /** Success without a value (a `null` data payload). */
  datatype Unit = Unit

  /** Pass or fail with an error, for middleware that only decides. */
  datatype Outcome = Pass | Fail(error: ApiError)
}
