/** Optional values, the failures the service reports, and their HTTP status codes and detail texts. */
module Outcomes {

  datatype Option<+T> = None | Some(value: T) {
    /** The value, or `default` when absent (a parameter with a default value). */
    function GetOr(default: T): T {
      if Some? then value else default
    }
  }

  /** One constructor per error response the service can send. */
  datatype Failure =
    | Unauthorized            // missing or wrong API key
    | RequestInvalid          // request body or query parameter fails schema validation
    | MissingKey(key: string) // the payload lacks a required top-level key
    | NotFound                // no event, or an event whose exnum does not match

  datatype Result<+T> = Ok(value: T) | Err(error: Failure)

  /** The HTTP status code sent for a failure. */
  function Status(f: Failure): (code: int)
    ensures code == 401 <==> f.Unauthorized?
    ensures code == 404 <==> f.NotFound?
    ensures code == 422 <==> f.RequestInvalid? || f.MissingKey?
  {
    match f
    case Unauthorized => 401
    case RequestInvalid => 422
    case MissingKey(_) => 422
    case NotFound => 404
  }

  const InvalidKeyDetail: string := "Invalid or missing API key"
  const NotFoundDetail: string := "Not found"
  const MissingKeyPrefix: string := "payload must include '"

  /** The `detail` text of the error body; schema-validation details are not modelled, hence None. */
  function Detail(f: Failure): (d: Option<string>)
    ensures f.RequestInvalid? <==> d.None?
    ensures f.MissingKey? ==> d.Some? && |d.value| == |MissingKeyPrefix| + |f.key| + 1
                              && d.value[|MissingKeyPrefix|..|MissingKeyPrefix| + |f.key|] == f.key
  {
    match f
    case Unauthorized => Some(InvalidKeyDetail)
    case RequestInvalid => None
    case MissingKey(k) => Some(MissingKeyPrefix + k + "'")
    case NotFound => Some(NotFoundDetail)
  }
}
