/** The three authenticated events routes: the key gate runs first, then request validation,
    then the ledger operation. */
module Api {
  import opened Outcomes
  import opened Json
  import opened Schemas
  import opened Models
  import opened Security
  import opened Ordering
  import opened Events

  /** `POST /v1/events` with header key `apiKey` and decoded body `body`. */
  method HandleCreate(ledger: Ledger, apiKey: Option<string>, expected: string, body: Json, now: string)
    returns (r: Result<EventOut>)
    requires ledger.Valid()
    modifies ledger
    ensures ledger.Valid()
    ensures RequireApiKey(apiKey, expected).Err? ==> r == Err(Unauthorized) && ledger.events == old(ledger.events) && ledger.nextId == old(ledger.nextId)
    ensures RequireApiKey(apiKey, expected).Ok? && ParseEventIn(body).Err? ==>
              r == Err(RequestInvalid) && ledger.events == old(ledger.events) && ledger.nextId == old(ledger.nextId)
    ensures RequireApiKey(apiKey, expected).Ok? && ParseEventIn(body).Ok? ==>
              var input := ParseEventIn(body).value;
              var k := FirstMissingIndex(RequiredKeys, input.payload);
              if k < |RequiredKeys| then
                r == Err(MissingKey(RequiredKeys[k]))
                && ledger.events == old(ledger.events) && ledger.nextId == old(ledger.nextId)
              else
                r == Ok(EventOut(old(ledger.nextId), now, input.source, input.payload))
                && JObject(r.value.payload) == body.fields["payload"]
                && ledger.events == old(ledger.events) + [Event(r.value.id, now, input.source, JObject(input.payload))]
    ensures r.Err? ==> ledger.events == old(ledger.events)
  {
    var auth := RequireApiKey(apiKey, expected);
    if auth.Err? {
      return Err(auth.error);
    }
    var parsed := ParseEventIn(body);
    if parsed.Err? {
      return Err(parsed.error);
    }
    r := ledger.Create(parsed.value, now);
  }

  /** `GET /v1/events?limit=..&offset=..`; an absent parameter takes its default (50 and 0). */
  function HandleList(events: seq<Event>, apiKey: Option<string>, expected: string,
                      limit: Option<int>, offset: Option<int>): (r: Result<seq<EventOut>>)
    requires ObjectPayloads(events)
    ensures RequireApiKey(apiKey, expected).Err? <==> r.Err?
    ensures r.Err? ==> r.error == Unauthorized
    ensures r.Ok? ==> |r.value| == Min(ClampLimit(limit.GetOr(DefaultLimit)),
                                       Max(0, |events| - ClampOffset(offset.GetOr(DefaultOffset))))
    ensures r.Ok? && limit.None? && offset.None? ==> |r.value| == Min(50, |events|)
    ensures r.Ok? ==> forall i :: 0 <= i < |r.value| ==>
              ClampOffset(offset.GetOr(DefaultOffset)) + i < |events|
              && SortByIdDesc(events)[ClampOffset(offset.GetOr(DefaultOffset)) + i].payload.JObject?
              && r.value[i] == ToOut(SortByIdDesc(events)[ClampOffset(offset.GetOr(DefaultOffset)) + i])
    ensures r.Ok? && DistinctIds(events) ==> forall i, j :: 0 <= i < j < |r.value| ==> r.value[i].id > r.value[j].id
  {
    var auth := RequireApiKey(apiKey, expected);
    if auth.Err? then Err(auth.error)
    else
      Ok(ListEvents(events, limit.GetOr(DefaultLimit), offset.GetOr(DefaultOffset)))
  }

  /** On a ledger's table the list route is newest first: the i-th entry is the event with key
      n - offset' - i, where offset' is the clamped offset. */
  lemma ListRouteNewestFirst(events: seq<Event>, apiKey: Option<string>, expected: string,
                             limit: Option<int>, offset: Option<int>)
    requires Stored(events)
    ensures ObjectPayloads(events)
    ensures var r := HandleList(events, apiKey, expected, limit, offset);
            var skip := ClampOffset(offset.GetOr(DefaultOffset));
            r.Ok? ==> forall i :: 0 <= i < |r.value| ==>
              r.value[i] == ToOut(events[|events| - 1 - skip - i]) && r.value[i].id == |events| - skip - i
  {
    ListNewestFirst(events, limit.GetOr(DefaultLimit), offset.GetOr(DefaultOffset));
  }

  /** `GET /v1/events/{id}?exnum=..`; the exnum query parameter is required and must be non-empty. */
  function HandleGet(events: seq<Event>, apiKey: Option<string>, expected: string,
                     id: int, exnum: Option<string>): (r: Result<EventOut>)
    ensures RequireApiKey(apiKey, expected).Err? ==> r == Err(Unauthorized)
    ensures RequireApiKey(apiKey, expected).Ok? && (exnum.None? || exnum.value == "") ==> r == Err(RequestInvalid)
    ensures r.Ok? ==> exnum.Some? && exnum.value != "" && r.value.id == id
                      && "exnum" in r.value.payload && r.value.payload["exnum"] == JString(exnum.value)
    ensures r.Ok? ==> exnum.Some? && exists e | e in events ::
                        e.id == id && ExnumMatches(e.payload, exnum.value) && r.value == ToOut(e)
    ensures RequireApiKey(apiKey, expected).Ok? && exnum.Some? && exnum.value != "" && DistinctIds(events) ==>
              (r.Ok? <==> exists e | e in events :: e.id == id && ExnumMatches(e.payload, exnum.value))
    ensures r.Err? ==> r.error in {Unauthorized, RequestInvalid, NotFound}
    ensures r == Err(NotFound) ==> Status(r.error) == 404 && Detail(r.error) == Some(NotFoundDetail)
  {
    var auth := RequireApiKey(apiKey, expected);
    if auth.Err? then Err(auth.error)
    else if exnum.None? || exnum.value == "" then Err(RequestInvalid)
    else
      assert DistinctIds(events) ==>
               (GetEvent(events, id, exnum.value).Ok? <==>
                exists e | e in events :: e.id == id && ExnumMatches(e.payload, exnum.value)) by {
        if DistinctIds(events) { GetCharacterised(events, id, exnum.value); }
      }
      GetEvent(events, id, exnum.value)
  }

  /** A payload whose `exnum` is the empty string is stored but can never be read back by get. */
  lemma EmptyExnumUnreachable(events: seq<Event>, apiKey: Option<string>, expected: string, i: nat,
                              exnum: Option<string>)
    requires Stored(events) && i < |events|
    requires "exnum" in events[i].payload.fields && events[i].payload.fields["exnum"] == JString("")
    ensures HandleGet(events, apiKey, expected, events[i].id, exnum).Err?
  {
  }

  /** One create on an empty ledger, then get with the right exnum, a wrong exnum and a wrong key. */
  method CreateAndReadBack(key: string)
    returns (created: Result<EventOut>, found: Result<EventOut>, missed: Result<EventOut>, denied: Result<EventOut>)
    requires key != ""
    ensures created.Ok? && created.value.id == 1 && created.value.source == Some("test-source")
    ensures found == created
    ensures missed == Err(NotFound) && Detail(missed.error) == Some(NotFoundDetail)
    ensures denied == Err(Unauthorized) && Detail(denied.error) == Some(InvalidKeyDetail)
  {
    var ledger := new Ledger();
    var payload := map["stid" := JString("station-123"), "exnum" := JString("EX001"),
                       "table" := JObject(map["column1" := JString("value1")])];
    var body := JObject(map["source" := JString("test-source"), "payload" := JObject(payload)]);
    assert Lookup(body.fields, "source") == Some(JString("test-source"));
    assert FirstMissingIndex(RequiredKeys, payload) == 3;
    created := HandleCreate(ledger, Some(key), key, body, "t0");
    assert created == Ok(EventOut(1, "t0", Some("test-source"), payload));
    assert ledger.events == [Event(1, "t0", Some("test-source"), JObject(payload))];
    found := HandleGet(ledger.events, Some(key), key, 1, Some("EX001"));
    StoredIdsAscending(ledger.events);
    GetCharacterised(ledger.events, 1, "EX001");
    assert ExnumMatches(ledger.events[0].payload, "EX001");
    MismatchIsNotFound(ledger.events, 0, "WRONG");
    missed := HandleGet(ledger.events, Some(key), key, 1, Some("WRONG"));
    denied := HandleGet(ledger.events, Some(key + "x"), key, 1, Some("EX001"));
    assert (key + "x") != key by { assert |key + "x"| != |key|; }
  }
}
