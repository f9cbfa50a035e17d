/**
 * Listing the events of an ESPN scoreboard payload
 * (rusty-golf-setup/src/espn.rs, `extract_espn_events`): every event under
 * every league under every sport, in that order, as an (id, name) pair, the
 * name falling back to the short name and events without either skipped.
 */
module EspnEvents {
  import opened Wrappers
  import opened Json

  type EventPair = (string, string)

  /** `v.get(key).and_then(Value::as_array)`, with a missing or non-array value read as no items. */
  function Items(v: Json, key: string): seq<Json> {
    GetArray(v, key).GetOr([])
  }

  /** The event's name, or else its short name. */
  function EventName(event: Json): (r: Option<string>)
    ensures GetStr(event, "name").Some? ==> r == GetStr(event, "name")
    ensures GetStr(event, "name").None? ==> r == GetStr(event, "shortName")
  {
    match GetStr(event, "name")
    case Some(name) => Some(name)
    case None => GetStr(event, "shortName")
  }

  /** The pair an event contributes: none unless it has a string id and a name. */
  function EventEntry(event: Json): (r: seq<EventPair>)
    ensures |r| <= 1
    ensures |r| == 1 <==> GetStr(event, "id").Some? && EventName(event).Some?
    ensures |r| == 1 ==> r[0] == (GetStr(event, "id").value, EventName(event).value)
  {
    match (GetStr(event, "id"), EventName(event))
    case (Some(id), Some(name)) => [(id, name)]
    case _ => []
  }

  function LeagueEvents(league: Json): seq<EventPair> {
    ConcatMap(Items(league, "events"), EventEntry)
  }

  function SportEvents(sport: Json): seq<EventPair> {
    ConcatMap(Items(sport, "leagues"), LeagueEvents)
  }

  /** What the payload lists, sport by sport, league by league, event by event. */
  function PayloadEvents(payload: Json): seq<EventPair> {
    ConcatMap(Items(payload, "sports"), SportEvents)
  }

  /** The results of f on each item, concatenated in order. */
  function ConcatMap(items: seq<Json>, f: Json -> seq<EventPair>): seq<EventPair> {
    if |items| == 0 then [] else ConcatMap(items[..|items| - 1], f) + f(items[|items| - 1])
  }

  lemma ConcatMapSnoc(items: seq<Json>, i: int, f: Json -> seq<EventPair>)
    requires 0 <= i < |items|
    ensures ConcatMap(items[..i + 1], f) == ConcatMap(items[..i], f) + f(items[i])
  {
    assert items[..i + 1][..i] == items[..i];
  }

  /** `extract_espn_events`: three nested loops pushing one pair per usable event. */
  method ExtractEspnEvents(payload: Json) returns (events: seq<EventPair>)
    ensures events == PayloadEvents(payload)
  {
    events := [];
    var sports := Items(payload, "sports");
    for i := 0 to |sports|
      invariant events == ConcatMap(sports[..i], SportEvents)
    {
      events := PushSportEvents(events, Items(sports[i], "leagues"));
      ConcatMapSnoc(sports, i, SportEvents);
    }
    assert sports[..|sports|] == sports;
  }

  /** The loop over one sport's leagues, pushing onto the list built so far. */
  method PushSportEvents(events: seq<EventPair>, leagues: seq<Json>) returns (pushed: seq<EventPair>)
    ensures pushed == events + ConcatMap(leagues, LeagueEvents)
  {
    pushed := events;
    for j := 0 to |leagues|
      invariant pushed == events + ConcatMap(leagues[..j], LeagueEvents)
    {
      pushed := PushLeagueEvents(pushed, Items(leagues[j], "events"));
      ConcatMapSnoc(leagues, j, LeagueEvents);
    }
    assert leagues[..|leagues|] == leagues;
  }

  /** The loop over one league's events, pushing each usable one. */
  method PushLeagueEvents(events: seq<EventPair>, entries: seq<Json>) returns (pushed: seq<EventPair>)
    ensures pushed == events + ConcatMap(entries, EventEntry)
  {
    pushed := events;
    for k := 0 to |entries|
      invariant pushed == events + ConcatMap(entries[..k], EventEntry)
    {
      var event := entries[k];
      var id := GetStr(event, "id");
      var name := EventName(event);
      if id.Some? && name.Some? {
        pushed := pushed + [(id.value, name.value)];
      }
      ConcatMapSnoc(entries, k, EventEntry);
    }
    assert entries[..|entries|] == entries;
  }

  // ----- properties -----

  /** A pair is listed exactly when one of the items contributes it. */
  lemma {:induction false} ConcatMapMember(items: seq<Json>, f: Json -> seq<EventPair>, x: EventPair)
    ensures x in ConcatMap(items, f) <==> exists i :: 0 <= i < |items| && x in f(items[i])
  {
    if |items| > 0 {
      var n := |items| - 1;
      ConcatMapMember(items[..n], f, x);
      assert forall i :: 0 <= i < n ==> items[..n][i] == items[i];
    }
  }

  /** The event at sport s, league l, position e of the payload. */
  predicate EventAt(payload: Json, s: int, l: int, e: int, event: Json) {
    && 0 <= s < |Items(payload, "sports")|
    && 0 <= l < |Items(Items(payload, "sports")[s], "leagues")|
    && 0 <= e < |Items(Items(Items(payload, "sports")[s], "leagues")[l], "events")|
    && event == Items(Items(Items(payload, "sports")[s], "leagues")[l], "events")[e]
  }

  /** Every listed pair comes from an event of the payload with a string id and a name (or short name). */
  lemma ListedEventsExist(payload: Json, x: EventPair)
    requires x in PayloadEvents(payload)
    ensures exists s, l, e, event :: EventAt(payload, s, l, e, event) && EventEntry(event) == [x]
  {
    var s, l, e, event := ListedEventAt(payload, x);
  }

  /** The position of a listed pair's event in the payload. */
  lemma ListedEventAt(payload: Json, x: EventPair) returns (s: int, l: int, e: int, event: Json)
    requires x in PayloadEvents(payload)
    ensures EventAt(payload, s, l, e, event) && EventEntry(event) == [x]
  {
    var sports := Items(payload, "sports");
    ConcatMapMember(sports, SportEvents, x);
    s :| 0 <= s < |sports| && x in SportEvents(sports[s]);
    var leagues := Items(sports[s], "leagues");
    ConcatMapMember(leagues, LeagueEvents, x);
    l :| 0 <= l < |leagues| && x in LeagueEvents(leagues[l]);
    var entries := Items(leagues[l], "events");
    ConcatMapMember(entries, EventEntry, x);
    e :| 0 <= e < |entries| && x in EventEntry(entries[e]);
    event := entries[e];
    SingleEntry(event, x);
  }

  /** An event contributes at most one pair, so a pair it contributes is all it contributes. */
  lemma SingleEntry(event: Json, x: EventPair)
    requires x in EventEntry(event)
    ensures EventEntry(event) == [x]
  {
    var r := EventEntry(event);
    assert |r| == 1 && r[0] == x;
  }

  /** Every event of the payload with a string id and a name (or short name) is listed. */
  lemma UsableEventsListed(payload: Json, s: int, l: int, e: int, event: Json)
    requires EventAt(payload, s, l, e, event)
    requires GetStr(event, "id").Some? && EventName(event).Some?
    ensures (GetStr(event, "id").value, EventName(event).value) in PayloadEvents(payload)
  {
    var x := (GetStr(event, "id").value, EventName(event).value);
    var sports := Items(payload, "sports");
    var leagues := Items(sports[s], "leagues");
    var entries := Items(leagues[l], "events");
    assert x in EventEntry(entries[e]);
    ConcatMapMember(entries, EventEntry, x);
    ConcatMapMember(leagues, LeagueEvents, x);
    ConcatMapMember(sports, SportEvents, x);
  }

  /** Earlier sports' events come first: the pairs of two runs of sports are each run's pairs, in order. */
  lemma {:induction false} ConcatMapAppend(a: seq<Json>, b: seq<Json>, f: Json -> seq<EventPair>)
    ensures ConcatMap(a + b, f) == ConcatMap(a, f) + ConcatMap(b, f)
    decreases |b|
  {
    if |b| > 0 {
      var n := |b| - 1;
      assert (a + b)[..|a| + n] == a + b[..n];
      ConcatMapAppend(a, b[..n], f);
    } else {
      assert a + b == a;
    }
  }

  /** A payload without a sports array lists nothing. */
  lemma NoSportsNoEvents(payload: Json)
    requires GetArray(payload, "sports").None?
    ensures PayloadEvents(payload) == []
  {
  }
}
