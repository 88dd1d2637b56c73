/** The event ledger: creating events, the paginated newest-first listing, and the lookup by id
    that only answers when the caller also knows the event's exnum. */
module Events {
  import opened Outcomes
  import opened Json
  import opened Schemas
  import opened Models
  import opened Ordering

  /** Top-level payload keys a create request must carry, in the order they are checked. */
  const RequiredKeys: seq<string> := ["stid", "exnum", "table"]

  const DefaultLimit: int := 50
  const DefaultOffset: int := 0
  const MaxLimit: int := 200

  function Min(a: int, b: int): int { if a <= b then a else b }
  function Max(a: int, b: int): int { if a >= b then a else b }

  // ---------------------------------------------------------------- create

  /** Index of the first key of `keys` absent from `payload`, or |keys| when none is absent. */
  function FirstMissingIndex(keys: seq<string>, payload: map<string, Json>): (i: nat)
    ensures i <= |keys|
    ensures forall j :: 0 <= j < i ==> keys[j] in payload
    ensures i < |keys| ==> keys[i] !in payload
  {
    if keys == [] || keys[0] !in payload then 0
    else 1 + FirstMissingIndex(keys[1..], payload)
  }

  /** The rows a ledger holds: keys 1, 2, 3, ... in insertion order, each row valid. */
  ghost predicate Stored(events: seq<Event>) {
    forall i :: 0 <= i < |events| ==> events[i].id == i + 1 && ValidEvent(events[i])
  }

  /** The ledger. `events` is the table in insertion order and `nextId` the key the next insert
      receives (the database's rowid assignment: one more than the largest key, 1 when empty). */
  class Ledger {
    var events: seq<Event>
    var nextId: int

    ghost predicate Valid()
      reads this
    {
      nextId == |events| + 1 && Stored(events)
    }

    constructor ()
      ensures Valid() && events == []
    {
      events := [];
      nextId := 1;
    }

    /** Checks the required payload keys in order and, when all are present, appends one event
        stamped with `now` (the store's clock) and the next key. */
    method Create(body: EventIn, now: string) returns (r: Result<EventOut>)
      requires Valid() && body.Valid()
      modifies this
      ensures Valid()
      ensures var k := FirstMissingIndex(RequiredKeys, body.payload);
              if k < |RequiredKeys| then
                r == Err(MissingKey(RequiredKeys[k])) && events == old(events) && nextId == old(nextId)
              else
                r == Ok(EventOut(old(nextId), now, body.source, body.payload))
                && events == old(events) + [Event(old(nextId), now, body.source, JObject(body.payload))]
                && nextId == old(nextId) + 1
      ensures r.Ok? ==> r.value.id >= 1 && forall e | e in old(events) :: e.id < r.value.id
    {
      for i := 0 to |RequiredKeys|
        invariant forall j :: 0 <= j < i ==> RequiredKeys[j] in body.payload
      {
        if RequiredKeys[i] !in body.payload {
          r := Err(MissingKey(RequiredKeys[i]));
          return;
        }
      }
      var e := Event(nextId, now, body.source, JObject(body.payload));
      events := events + [e];
      nextId := nextId + 1;
      r := Ok(ToOut(e));
    }
  }

  // ---------------------------------------------------------------- list

  /** The page size actually used: `limit` forced into [1, 200]. */
  function ClampLimit(limit: int): (r: int)
    ensures 1 <= r <= MaxLimit
    ensures 1 <= limit <= MaxLimit ==> r == limit
    ensures limit < 1 ==> r == 1
    ensures limit > MaxLimit ==> r == MaxLimit
  {
    Max(1, Min(limit, MaxLimit))
  }

  /** The offset actually used: negative offsets become 0. */
  function ClampOffset(offset: int): (r: nat)
    ensures offset >= 0 ==> r == offset
    ensures offset < 0 ==> r == 0
  {
    Max(0, offset)
  }

  /** `OFFSET offset LIMIT limit`: the rows at positions offset, offset + 1, ... of `s`, at most `limit` of them. */
  function Page(s: seq<Event>, offset: nat, limit: nat): (r: seq<Event>)
    ensures |r| == Min(limit, Max(0, |s| - offset))
    ensures forall i :: 0 <= i < |r| ==> r[i] == s[offset + i]
  {
    if offset >= |s| then [] else s[offset..Min(offset + limit, |s|)]
  }

  predicate ObjectPayloads(events: seq<Event>) {
    forall e | e in events :: e.payload.JObject?
  }

  /** The listing: rows newest key first, the clamped offset skipped, at most the clamped limit kept. */
  function ListEvents(events: seq<Event>, limit: int, offset: int): (r: seq<EventOut>)
    requires ObjectPayloads(events)
    ensures |r| == Min(ClampLimit(limit), Max(0, |events| - ClampOffset(offset)))
    ensures forall i :: 0 <= i < |r| ==>
              ClampOffset(offset) + i < |events|
              && SortByIdDesc(events)[ClampOffset(offset) + i].payload.JObject?
              && r[i] == ToOut(SortByIdDesc(events)[ClampOffset(offset) + i])
    ensures DistinctIds(events) ==> forall i, j :: 0 <= i < j < |r| ==> r[i].id > r[j].id
    ensures forall i :: 0 <= i < |r| ==> exists e | e in events :: e.payload.JObject? && r[i] == ToOut(e)
  {
    var rows := Page(SortByIdDesc(events), ClampOffset(offset), ClampLimit(limit));
    assert forall k :: 0 <= k < |rows| ==> rows[k] in events;
    seq(|rows|, k requires 0 <= k < |rows| => ToOut(rows[k]))
  }

  /** Listing a ledger's rows: the i-th row of a page is the event with key n - offset - i. */
  lemma ListNewestFirst(events: seq<Event>, limit: int, offset: int)
    requires Stored(events)
    ensures ObjectPayloads(events)
    ensures var r := ListEvents(events, limit, offset);
            forall i :: 0 <= i < |r| ==>
              r[i] == ToOut(events[|events| - 1 - ClampOffset(offset) - i])
              && r[i].id == |events| - ClampOffset(offset) - i
  {
    assert AscendingIds(events);
    SortOfAscendingIsReverse(events);
  }

  // ---------------------------------------------------------------- get

  /** Primary-key lookup. */
  function FindById(events: seq<Event>, id: int): (r: Option<Event>)
    ensures r.Some? ==> r.value in events && r.value.id == id
    ensures r.None? ==> forall e | e in events :: e.id != id
  {
    if events == [] then None
    else if events[0].id == id then Some(events[0])
    else FindById(events[1..], id)
  }

  /** Whether a payload is an object whose `exnum` is exactly the string `exnum`. */
  predicate ExnumMatches(payload: Json, exnum: string) {
    payload.JObject? && "exnum" in payload.fields && payload.fields["exnum"] == JString(exnum)
  }

  /** Get by id and exnum: the event with key `id` when its payload's `exnum` equals the query;
      "Not found" otherwise, whether the key is absent or the exnum differs. */
  function GetEvent(events: seq<Event>, id: int, exnum: string): (r: Result<EventOut>)
    ensures r.Err? ==> r == Err(NotFound)
    ensures r.Ok? ==> r.value.id == id && "exnum" in r.value.payload
                      && r.value.payload["exnum"] == JString(exnum)
    ensures r.Ok? ==> exists e | e in events :: e.id == id && ExnumMatches(e.payload, exnum) && r.value == ToOut(e)
  {
    match FindById(events, id)
    case None => Err(NotFound)
    case Some(e) =>
      var p := if Truthy(e.payload) then e.payload else JObject(map[]);
      if !p.JObject? || Lookup(p.fields, "exnum") != Some(JString(exnum)) then Err(NotFound)
      else Ok(ToOut(e))
  }

  /** With distinct keys, the lookup finds the one row that has the key. */
  lemma FindByIdUnique(events: seq<Event>, id: int, i: nat)
    requires DistinctIds(events)
    requires i < |events| && events[i].id == id
    ensures FindById(events, id) == Some(events[i])
  {
  }

  /** With distinct keys, get answers exactly for a stored event with that key and a matching exnum. */
  lemma GetCharacterised(events: seq<Event>, id: int, exnum: string)
    requires DistinctIds(events)
    ensures GetEvent(events, id, exnum).Ok? <==>
              exists i :: 0 <= i < |events| && events[i].id == id && ExnumMatches(events[i].payload, exnum)
    ensures forall i :: 0 <= i < |events| && events[i].id == id && ExnumMatches(events[i].payload, exnum) ==>
              GetEvent(events, id, exnum) == Ok(ToOut(events[i]))
  {
  }

  /** A missing key and a wrong exnum give the same answer. */
  lemma NotFoundIsMasked(events: seq<Event>, missingId: int, anyExnum: string, id: int, wrongExnum: string)
    requires DistinctIds(events)
    requires forall e | e in events :: e.id != missingId
    requires forall e | e in events && e.id == id :: !ExnumMatches(e.payload, wrongExnum)
    ensures GetEvent(events, missingId, anyExnum) == GetEvent(events, id, wrongExnum) == Err(NotFound)
  {
  }

  /** Get for a stored event with a query other than its payload's exnum is "Not found". */
  lemma MismatchIsNotFound(events: seq<Event>, i: nat, exnum: string)
    requires DistinctIds(events) && i < |events|
    requires !ExnumMatches(events[i].payload, exnum)
    ensures GetEvent(events, events[i].id, exnum) == Err(NotFound)
  {
  }

  /** An event whose payload `exnum` is missing or not a string is never returned by get. */
  lemma NonStringExnumNeverMatches(events: seq<Event>, i: nat, exnum: string)
    requires DistinctIds(events)
    requires i < |events| && events[i].payload.JObject?
    requires "exnum" !in events[i].payload.fields || !events[i].payload.fields["exnum"].JString?
    ensures GetEvent(events, events[i].id, exnum) == Err(NotFound)
  {
  }

  /** Keys 1, 2, 3, ... are distinct and ascending. */
  lemma StoredIdsAscending(events: seq<Event>)
    requires Stored(events)
    ensures AscendingIds(events) && DistinctIds(events)
  {
  }

  /** Round trip: after a successful create, get with the new key and the payload's string exnum
      returns the created event, with its source and payload unchanged. */
  lemma CreateThenGet(events: seq<Event>, body: EventIn, now: string, exnum: string)
    requires Stored(events)
    requires "exnum" in body.payload && body.payload["exnum"] == JString(exnum)
    ensures var e := Event(|events| + 1, now, body.source, JObject(body.payload));
            GetEvent(events + [e], e.id, exnum) == Ok(EventOut(e.id, now, body.source, body.payload))
  {
  }

  /** Five stored events, paged two at a time, then with an oversized limit and a negative offset. */
  lemma FiveEventPages(events: seq<Event>)
    requires Stored(events) && |events| == 5
    ensures ObjectPayloads(events)
    ensures |ListEvents(events, 2, 0)| == 2 && |ListEvents(events, 2, 2)| == 2 && |ListEvents(events, 2, 4)| == 1
    ensures |ListEvents(events, 1000, 0)| == 5 && |ListEvents(events, DefaultLimit, -5)| == 5
  {
  }
}
