/** The request and response records of the events API and the validation of a create request body. */
module Schemas {
  import opened Outcomes
  import opened Json

  /** Longest `source` label a request may carry. */
  const MaxSourceLength: nat := 200

  predicate ValidSource(source: Option<string>) {
    source.Some? ==> |source.value| <= MaxSourceLength
  }

  /** The body of a create request: an optional source label and a string-keyed payload object. */
  datatype EventIn = EventIn(source: Option<string>, payload: map<string, Json>) {
    predicate Valid() {
      ValidSource(source)
    }
  }

  /** What every read or create returns for one event. */
  datatype EventOut = EventOut(id: int, receivedAt: string, source: Option<string>, payload: map<string, Json>)

  /** Whether the value under `source` (absent when None) is acceptable: missing, null, or a short string. */
  predicate SourceAcceptable(raw: Option<Json>) {
    raw.None? || raw.value.JNull? || (raw.value.JString? && |raw.value.s| <= MaxSourceLength)
  }

  /** Validation of a decoded create body against EventIn: the body must be an object whose
      `payload` is an object and whose optional `source` is null or a string of at most 200
      characters; any other top-level key is ignored. */
  function ParseEventIn(body: Json): (r: Result<EventIn>)
    ensures r.Ok? <==> body.JObject? && "payload" in body.fields && body.fields["payload"].JObject?
                       && SourceAcceptable(Lookup(body.fields, "source"))
    ensures r.Err? ==> r.error == RequestInvalid
    ensures r.Ok? ==> r.value.Valid() && JObject(r.value.payload) == body.fields["payload"]
    ensures r.Ok? ==> (r.value.source.None? <==> "source" !in body.fields || body.fields["source"].JNull?)
    ensures r.Ok? && r.value.source.Some? ==> body.fields["source"] == JString(r.value.source.value)
  {
    if !body.JObject? then Err(RequestInvalid)
    else
      var source: Result<Option<string>> :=
        match Lookup(body.fields, "source")
        case None => Ok(None)
        case Some(JNull) => Ok(None)
        case Some(JString(s)) => if |s| <= MaxSourceLength then Ok(Some(s)) else Err(RequestInvalid)
        case Some(_) => Err(RequestInvalid);
      match Lookup(body.fields, "payload")
      case Some(JObject(p)) => if source.Ok? then Ok(EventIn(source.value, p)) else Err(RequestInvalid)
      case _ => Err(RequestInvalid)
  }
}
