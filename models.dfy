/** The persisted event row. */
module Models {
  import opened Outcomes
  import opened Json
  import opened Schemas

  /** One stored event: integer primary key, the store's insertion timestamp (opaque text),
      an optional source label and the JSON payload column. */
  datatype Event = Event(id: int, receivedAt: string, source: Option<string>, payload: Json)

  /** What every row the ledger writes satisfies: a positive key, an object payload (so never
      null) and a source of at most 200 characters. */
  predicate ValidEvent(e: Event) {
    e.id >= 1 && e.payload.JObject? && ValidSource(e.source)
  }

  /** The response record for a row whose payload is an object. */
  function ToOut(e: Event): EventOut
    requires e.payload.JObject?
  {
    EventOut(e.id, e.receivedAt, e.source, e.payload.fields)
  }

  /** The response record carries the row's id, timestamp, source and payload unchanged, and
      distinct rows give distinct records. */
  lemma ToOutKeepsFields(e: Event, other: Event)
    requires e.payload.JObject? && other.payload.JObject?
    ensures ToOut(e).id == e.id && ToOut(e).receivedAt == e.receivedAt && ToOut(e).source == e.source
    ensures JObject(ToOut(e).payload) == e.payload
    ensures ToOut(e) == ToOut(other) ==> e == other
  {
  }
}
