# Event ledger of the SQLite ingestion service, in Dafny

The service accepts JSON events over HTTP, stores them in one table and reads them back. This
project models its core: the ledger behind `POST /v1/events` (create), `GET /v1/events` (paged
list, newest first) and `GET /v1/events/{id}?exnum=...` (lookup by id that answers only when the
caller also knows the payload's `exnum`), plus the `X-API-Key` gate in front of all three.

Modules, one per source file or concern:

- `Outcomes` (outcomes.dfy): `Option`, `Result` and the four failures the routes raise, with their
  status codes (401, 422, 404) and detail texts.
- `Json` (json.dfy): decoded JSON values (object/array/string/number/bool/null), Python truthiness,
  and `dict.get`.
- `Schemas` (schemas.dfy): `EventIn` and `EventOut` from app/schemas.py, and `ParseEventIn`, the
  request-body validation that the framework runs before the create handler.
- `Models` (models.dfy): the stored `Event` row and its validity predicate.
- `Security` (security.dfy): `RequireApiKey`. The expected key is a parameter. `ExpectedKey` gives
  the value the environment read produces: the configured value, or the placeholder
  `CHANGE_ME_TO_A_LONG_RANDOM_SECRET` when unset.
- `Ordering` (ordering.dfy): `ORDER BY id DESC`, written as an insertion sort. It is proved to be a
  permutation and strictly descending when keys are distinct. On rows already in ascending key
  order it is proved to equal reversal.
- `Events` (events.dfy): the `Ledger` class with `events: seq<Event>` and `nextId`. The imperative
  `Create` method has the source's loop over the required keys. The list and get queries are
  functions over the event sequence: reads cannot change the store.
- `Api` (api.dfy): the three routes, in the order the framework runs their checks. The key gate runs
  first, then request validation (body schema, or the required non-empty `exnum` query parameter),
  then the handler.

Keys are assigned like the database's rowid with no deletes: 1 for the first event, then one more
than the last. The ledger invariant `Valid()` says the i-th stored event has key i + 1, an object
payload (so never null) and a source of at most 200 characters. From it follow: keys are unique and
ascending, a new key exceeds every existing one, and the list returns the event with key
n - offset - i at position i.

The main results:

- Create checks `stid`, `exnum`, `table` in that order and fails naming the first one missing.
  On failure the store is unchanged. On success exactly one event is appended, with the input's
  source and payload (extra keys kept) and a key larger than all others.
- List clamps `limit` into [1, 200] and `offset` to at least 0. It returns exactly positions
  offset' .. offset' + limit' - 1 of the newest-first order, in strictly descending key order, of
  length min(limit', max(0, n - offset')).
- Get returns the event if and only if an event with that key exists and its payload's `exnum` is
  exactly the query string. A missing key and a wrong or non-string `exnum` give the very same
  `Err(NotFound)` ("Not found", 404). A create followed by a get with the new key and the payload's
  string `exnum` returns the created event unchanged.
- Without a valid key every route answers 401 "Invalid or missing API key", whatever the decoded
  body or the query parameters.

The handler's 400 check for a non-object payload (app/main.py:49-50) can never fire. `EventIn`
types `payload` as a mapping, so schema validation answers 422 first. In the model `EventIn.payload` is a map, that branch cannot be
written, and `ParseEventIn` rejects such bodies with `RequestInvalid` (422).

A consequence worth knowing, proved as `Api.EmptyExnumUnreachable` and
`Events.NonStringExnumNeverMatches`: create accepts a payload whose `exnum` is the empty string or
not a string at all. Such an event is stored but can never be read back by get, because the query
must be a non-empty string.

## Model

| member | source | states |
|---|---|---|
| `Outcomes.Status` | app/main.py:49-119 | 401 exactly for a refused key, 404 exactly for "Not found", 422 exactly for validation failures and missing payload keys |
| `Outcomes.Detail` | app/main.py:53-55 | the missing-key detail contains the missing key's name; schema-validation failures carry no modelled detail |
| `Json.Truthy` | app/main.py:116 | Python truthiness as `e.payload or {}` uses it: null is falsy, an object or a string is truthy iff it is non-empty |
| `Json.Lookup` | app/main.py:117 | `dict.get`: a value exactly when the key is present, and then the value stored under it |
| `Models.ToOutKeepsFields` | app/main.py:62-67 | the response record built from a row (`Models.ToOut`, which has no contract of its own; also used at app/main.py:85-92 and 121-126) carries its id, timestamp, source and payload unchanged, and distinct rows give distinct records |
| `Schemas.ParseEventIn` | app/schemas.py:4-6 | a body is accepted iff it is an object with an object `payload` and a `source` that is absent, null or a string of at most 200 characters; then the payload is kept exactly and a missing or null source becomes None; every rejection is 422, so a non-object payload is 422 and not 400 |
| `Security.RequireApiKey` | app/security.py:8-12 | access is granted iff the supplied key is present and equals a non-empty expected key; the supplied key is then returned unchanged; otherwise 401 "Invalid or missing API key" for missing and wrong keys alike |
| `Security.ExpectedKey` | app/security.py:9 | the expected key is the configured API_KEY value when set (even when empty), and the non-empty placeholder `CHANGE_ME_TO_A_LONG_RANDOM_SECRET` when unset |
| `Security.UnconfiguredAdmitsOnlyPlaceholder` | app/security.py:9-10 | with API_KEY unset, exactly the placeholder key `CHANGE_ME_TO_A_LONG_RANDOM_SECRET` is admitted |
| `Security.EmptyConfiguredKeyRefusesAll` | app/security.py:9-11 | with API_KEY set to the empty string, every request is refused |
| `Ordering.InsertByIdDesc` | app/main.py:79 | inserting one row yields the old rows plus that row (same multiset, same members, one longer) |
| `Ordering.InsertKeepsDescending` | app/main.py:79 | inserting a row with a new key into a strictly descending sequence keeps it strictly descending |
| `Ordering.SortByIdDesc` | app/main.py:77-79 | the ordered rows are a permutation of the table and, when keys are distinct, in strictly descending key order |
| `Ordering.SortOfAscendingIsReverse` | app/main.py:77-79 | for rows stored in ascending key order, descending key order is the reverse insertion order (newest first) |
| `Events.FirstMissingIndex` | app/main.py:53-55 | the index of the first required key absent from the payload: every earlier key is present and that key is absent, or every key is present |
| `Events.Ledger.constructor` | app/models.py:4-10 | an empty table satisfying the ledger invariant |
| `Events.Ledger.Create` | app/main.py:36-67 | keeps the invariant; fails with the first missing key of `stid`, `exnum`, `table` leaving the store unchanged, or appends exactly one event with the next key, the store's timestamp and the input's source and payload, and returns it; the new key is positive and larger than every existing key |
| `Events.ClampLimit` | app/main.py:74 | the limit used is in [1, 200], equals the request's limit when that is in range, and is 1 below and 200 above |
| `Events.ClampOffset` | app/main.py:75 | the offset used is the request's offset when non-negative and 0 otherwise |
| `Events.Page` | app/main.py:80-81 | offset/limit keeps min(limit, max(0, n - offset)) rows, the i-th being row offset + i |
| `Events.ListEvents` | app/main.py:72-93 | the listing has length min(limit', max(0, n - offset')) for the clamped values, its i-th entry is the (offset' + i)-th row in descending key order, keys strictly descend, and every entry is a stored event |
| `Events.ListNewestFirst` | app/main.py:77-83 | for a ledger's table the i-th listed event is the one with key n - offset' - i, i.e. the newest events come first |
| `Events.FiveEventPages` | tests/test_integration_workflow.py:54-64 | with five events, limit 2 at offsets 0, 2, 4 gives 2, 2, 1 rows; limit 1000 gives 5; offset -5 gives 5 |
| `Events.FindById` | app/main.py:112 | the lookup returns a stored row with the requested key, or none when no row has it |
| `Events.FindByIdUnique` | app/models.py:7 | with distinct primary keys the lookup returns the one row with that key |
| `Events.GetEvent` | app/main.py:98-126 | every failure is the same `Err(NotFound)`; a result is a stored event with the requested key whose payload's `exnum` is exactly the query string |
| `Events.GetCharacterised` | app/main.py:112-126 | get succeeds iff a stored event has the key and a payload object whose `exnum` equals the query, and then returns that event |
| `Events.NotFoundIsMasked` | app/main.py:113-119 | a missing key and an existing key with a wrong exnum give identical answers, both "Not found" |
| `Events.MismatchIsNotFound` | app/main.py:116-119 | get for a stored event with a query other than its payload's exnum is "Not found" |
| `Events.NonStringExnumNeverMatches` | app/main.py:117 | an event whose payload `exnum` is missing or not a string is never returned by get |
| `Events.StoredIdsAscending` | app/models.py:7 | the ledger's keys are distinct and ascending |
| `Events.CreateThenGet` | app/main.py:57-126 | after appending the created event, get with its key and its payload's exnum returns that id, source and payload unchanged |
| `Api.HandleCreate` | app/main.py:36-67 | a refused key gives 401 before any validation; then an invalid body gives 422; then the ledger's create; the store changes only on success, by exactly one event whose payload is the body's payload |
| `Api.HandleList` | app/main.py:72-93 | 401 exactly when the key is refused; otherwise, with limit and offset defaulting to 50 and 0 and then clamped, the i-th entry is the (offset' + i)-th stored row in descending key order, the length is min(limit', max(0, n - offset')) (min(50, n) with both omitted), and keys strictly descend when stored keys are distinct |
| `Api.ListRouteNewestFirst` | app/main.py:77-83 | on a ledger's table the route's i-th entry is the stored event with key n - offset' - i |
| `Api.HandleGet` | app/main.py:98-126 | a refused key gives 401; a missing or empty exnum gives 422 before any lookup; a result is a stored event with the requested key whose payload's exnum is the query; with distinct keys, an accepted key and a non-empty exnum, it succeeds iff such a stored event exists; "Not found" is 404 with detail "Not found"; no other failure than 401, 422 and 404 |
| `Api.CreateAndReadBack` | tests/test_api_events_get.py:5-42 | one create on an empty ledger gets key 1 and the given source; get with the payload's exnum returns the created event; get with exnum "WRONG" is 404 "Not found"; a wrong key is 401 "Invalid or missing API key" |
| `Api.EmptyExnumUnreachable` | app/main.py:101 | an event stored with an empty-string exnum can never be read back by get |

## Left out

- A create body that is not valid JSON text is answered 422 before the key gate runs: the model
  starts from the decoded body, so `HandleCreate` does not capture that case.
- HTTP routing, dependency injection, header parsing, JSON decoding of the request text, response
  serialization and the exception-to-response plumbing: outcomes are `Result` values.
- Schema-validation error details in 422 bodies: only the fact of rejection is modelled.
  `ParseEventIn` assumes strict string validation for `source` (a number is not turned into a string).
- The database session lifecycle, table creation at import and app/db.py (SQLite engine, pool,
  thread flags): the table is the in-memory `events` sequence of the `Ledger` class.
- The environment read of API_KEY: its result is the `configured` parameter of `ExpectedKey`, and
  `RequireApiKey` takes the expected key as a parameter.
- Wall-clock timestamps and ISO-8601 formatting: the timestamp is an opaque string passed to
  `Create` as `now`. Nothing is claimed about timestamp order.
- Storage failures, the JSON column's serialization, and SQLite's limits on integer keys and
  on `LIMIT`/`OFFSET` values: integers are unbounded.
- Key order inside payload objects, and duplicate keys in the request JSON, are not represented:
  objects are maps, so the model does not promise that a payload comes back with its keys in the
  order they were sent.
- JSON numbers are exact reals. Floating-point rounding, and the distinction between ints and
  floats of equal value, are not represented.
- The `/health` route: it returns a constant.
- A lookup by `stid` and `exnum` through a full scan: no such route exists in app/main.py, so it is
  not part of this model.
- Concurrency: concurrent inserts, multi-process key assignment and clock guarantees.
- Response-model validation failures (a stored non-object payload would fail `EventOut`): the ledger
  invariant rules this out, and `ListEvents` requires object payloads.
