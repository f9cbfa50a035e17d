/**
 * Reading a score page request from its query parameters and choosing how
 * long cached scores stay fresh (core/src/score/request.rs).
 */
module ScoreRequest {
  import opened Wrappers
  import opened Text

  datatype ScoreRequest = ScoreRequest(eventId: int, year: int, useCache: bool, wantJson: bool, expanded: bool)

  type Query = map<string, string>

  function Param(query: Query, key: string): Option<string> {
    if key in query then Some(query[key]) else None
  }

  /** A required i32 parameter: present and, once trimmed, an i32. */
  function RequiredI32(query: Query, key: string): Option<int> {
    if key in query then ParseI32(Trim(query[key])) else None
  }

  /** `str::parse::<bool>`: exactly "true" or "false". */
  function ParseBool(s: string): Option<bool> {
    if s == "true" then Some(true) else if s == "false" then Some(false) else None
  }

  /** The json / expanded flags: "1" is true, "0" or absent is false, else a bool literal, else false. */
  function Flag(v: Option<string>): (b: bool)
    ensures b <==> v == Some("1") || v == Some("true")
  {
    match v
    case Some("1") => true
    case Some("0") => false
    case None => false
    case Some(other) => ParseBool(other).GetOr(false)
  }

  const EVENT_REQUIRED: string := "espn event parameter is required"
  const YEAR_REQUIRED: string := "yr (year) parameter is required"

  /** `parse_score_request`. */
  function ParseScoreRequest(query: Query): (r: Result<ScoreRequest, string>)
    ensures r.Err? <==> RequiredI32(query, "event").None? || RequiredI32(query, "yr").None?
    ensures r.Err? ==> r.error == (if RequiredI32(query, "event").None? then EVENT_REQUIRED else YEAR_REQUIRED)
    ensures r.Ok? ==> Some(r.value.eventId) == RequiredI32(query, "event") && Some(r.value.year) == RequiredI32(query, "yr")
    ensures r.Ok? ==> (!r.value.useCache <==> Param(query, "cache") == Some("0"))
    ensures r.Ok? ==> r.value.wantJson == Flag(Param(query, "json")) && r.value.expanded == Flag(Param(query, "expanded"))
  {
    match RequiredI32(query, "event")
    case None => Err(EVENT_REQUIRED)
    case Some(eventId) =>
      match RequiredI32(query, "yr")
      case None => Err(YEAR_REQUIRED)
      case Some(year) =>
        var useCache := Param(query, "cache") != Some("0");
        Ok(ScoreRequest(eventId, year, useCache, Flag(Param(query, "json")), Flag(Param(query, "expanded"))))
  }

  /** The query a page link writes for a request. */
  function QueryOf(req: ScoreRequest): Query {
    map["event" := IntToString(req.eventId), "yr" := IntToString(req.year),
        "cache" := Digit(req.useCache), "json" := Digit(req.wantJson), "expanded" := Digit(req.expanded)]
  }

  /** A request written as a query reads back as itself. */
  lemma QueryRoundTrip(req: ScoreRequest)
    requires I32_MIN <= req.eventId <= I32_MAX && I32_MIN <= req.year <= I32_MAX
    ensures ParseScoreRequest(QueryOf(req)) == Ok(req)
  {
    var q := QueryOf(req);
    QueryLookups(req);
    NumberParam(q, "event", req.eventId);
    NumberParam(q, "yr", req.year);
    var r := ParseScoreRequest(q);
    assert r.value.useCache == req.useCache;
  }

  lemma QueryLookups(req: ScoreRequest)
    ensures var q := QueryOf(req);
      && "event" in q && q["event"] == IntToString(req.eventId)
      && "yr" in q && q["yr"] == IntToString(req.year)
      && Param(q, "cache") == Some(Digit(req.useCache))
      && Flag(Param(q, "json")) == req.wantJson
      && Flag(Param(q, "expanded")) == req.expanded
  {
    var q := QueryOf(req);
    assert Param(q, "json") == Some(Digit(req.wantJson));
    assert Param(q, "expanded") == Some(Digit(req.expanded));
  }

  /** How a link writes a flag. */
  function Digit(b: bool): string {
    if b then "1" else "0"
  }

  /** A parameter holding an i32 written out reads back as that number. */
  lemma NumberParam(q: Query, key: string, n: int)
    requires key in q && q[key] == IntToString(n) && I32_MIN <= n <= I32_MAX
    ensures RequiredI32(q, key) == Some(n)
  {
    NumberIsTrimmed(n);
    ParseIntToString(n, I32_MIN, I32_MAX);
  }

  lemma NumberIsTrimmed(n: int)
    ensures Trim(IntToString(n)) == IntToString(n)
  {
    IntToStringShape(n);
    var s := IntToString(n);
    assert !IsWhitespace(s[0]) && !IsWhitespace(s[|s| - 1]);
    TrimOfTrimmed(s);
  }

  /** Surrounding white space around the numbers is ignored. */
  lemma PaddingIgnored(query: Query, key: string, pad: string)
    requires key in query && forall i :: 0 <= i < |pad| ==> IsWhitespace(pad[i])
    ensures RequiredI32(query[key := pad + query[key] + pad], key) == RequiredI32(query, key)
  {
    TrimPadded(query[key], pad);
  }

  lemma {:induction false} TrimPadded(s: string, pad: string)
    requires forall i :: 0 <= i < |pad| ==> IsWhitespace(pad[i])
    ensures Trim(pad + s + pad) == Trim(s)
  {
    TrimStartPadded(s + pad, pad);
    assert pad + s + pad == pad + (s + pad);
    TrimEndPadded(TrimStart(s), pad);
    TrimStartKeepsSuffix(s, pad);
  }

  lemma {:induction false} TrimStartPadded(s: string, pad: string)
    requires forall i :: 0 <= i < |pad| ==> IsWhitespace(pad[i])
    ensures TrimStart(pad + s) == TrimStart(s)
  {
    if |pad| > 0 {
      assert (pad + s)[1..] == pad[1..] + s;
      TrimStartPadded(s, pad[1..]);
    } else {
      assert pad + s == s;
    }
  }

  lemma {:induction false} TrimEndPadded(s: string, pad: string)
    requires forall i :: 0 <= i < |pad| ==> IsWhitespace(pad[i])
    ensures TrimEnd(s + pad) == TrimEnd(s)
  {
    if |pad| > 0 {
      var n := |pad| - 1;
      assert (s + pad)[..|s| + n] == s + pad[..n];
      TrimEndPadded(s, pad[..n]);
    } else {
      assert s + pad == s;
    }
  }

  /** Trimming the start of s + pad is trimming the start of s, then appending pad (unless s is all white space). */
  lemma {:induction false} TrimStartKeepsSuffix(s: string, pad: string)
    requires forall i :: 0 <= i < |pad| ==> IsWhitespace(pad[i])
    ensures TrimEnd(TrimStart(s + pad)) == TrimEnd(TrimStart(s) + pad)
  {
    if |s| > 0 && IsWhitespace(s[0]) {
      assert (s + pad)[1..] == s[1..] + pad;
      TrimStartKeepsSuffix(s[1..], pad);
    } else if |s| == 0 {
      assert s + pad == pad;
      TrimStartPadded([], pad);
      assert pad + [] == pad;
      TrimEndPadded([], pad);
    }
  }

  // ----- cache age -----

  /** The event details the cache age depends on. */
  datatype EventDetails = EventDetails(endDate: Option<string>, refreshFromEspn: int)

  /**
   * `cache_max_age_for_event`, with the stored details, the RFC 3339 reader
   * (to whole seconds) and the clock passed in: 0 when the details cannot be
   * read, -1 once the event has ended, otherwise 300 seconds for events
   * refreshed from ESPN and 0 for the rest.
   */
  function CacheMaxAgeForEvent<E>(details: Result<EventDetails, E>, parseRfc3339: string -> Option<int>, now: int): (age: int)
    ensures details.Err? ==> age == 0
    ensures age == -1 <==> details.Ok? && Ended(details.value, parseRfc3339, now)
    ensures details.Ok? && !Ended(details.value, parseRfc3339, now) ==> age == (if details.value.refreshFromEspn == 1 then 300 else 0)
  {
    if details.Err? then 0
    else
      var d := details.value;
      if d.endDate.Some? && parseRfc3339(d.endDate.value).Some? && now > parseRfc3339(d.endDate.value).value then -1
      else if d.refreshFromEspn == 1 then 300
      else 0
  }

  /** The event has an end date that parses and lies before now. */
  predicate Ended(d: EventDetails, parseRfc3339: string -> Option<int>, now: int) {
    d.endDate.Some? && parseRfc3339(d.endDate.value).Some? && now > parseRfc3339(d.endDate.value).value
  }

  /** An end date that does not parse is ignored. */
  lemma UnparsableEndDateIgnored(d: EventDetails, parseRfc3339: string -> Option<int>, now: int)
    requires d.endDate.Some? && parseRfc3339(d.endDate.value).None?
    ensures CacheMaxAgeForEvent<string>(Ok(d), parseRfc3339, now) ==
      CacheMaxAgeForEvent<string>(Ok(d.(endDate := None)), parseRfc3339, now)
  {
  }

  /** `decode_score_request`: the request and its cache age, or the request's error. */
  function DecodeScoreRequest<E>(query: Query, details: int -> Result<EventDetails, E>,
    parseRfc3339: string -> Option<int>, now: int): (r: Result<(ScoreRequest, int), string>)
    ensures r.Err? <==> ParseScoreRequest(query).Err?
    ensures r.Ok? ==> (r.value.0 == ParseScoreRequest(query).value &&
      r.value.1 == CacheMaxAgeForEvent(details(r.value.0.eventId), parseRfc3339, now))
  {
    match ParseScoreRequest(query)
    case Err(e) => Err(e)
    case Ok(req) => Ok((req, CacheMaxAgeForEvent(details(req.eventId), parseRfc3339, now)))
  }
}
