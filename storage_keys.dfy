/**
 * The key layout of the serverless storage (serverless/src/storage_helpers.rs
 * and serverless/src/storage/storage_kv.rs): the R2 object keys and KV keys
 * of an event, reading the event id back out of a KV key, the event listing
 * built from the details keys, and the auth-token lookup.
 */
module StorageKeys {
  import opened Wrappers
  import opened Text
  import opened Sorting

  const EVENT_PREFIX: string := "event:"

  /** `parse_event_id`: the i32 between "event:" and the suffix, if the key has both. */
  function ParseEventId(key: string, suffix: string): (r: Option<int>)
    ensures r.Some? ==> StartsWith(key, EVENT_PREFIX) && EndsWith(key, suffix)
    ensures r.Some? ==> (|EVENT_PREFIX| <= |key| - |suffix| &&
      key == EVENT_PREFIX + key[|EVENT_PREFIX|..|key| - |suffix|] + suffix &&
      ParseI32(key[|EVENT_PREFIX|..|key| - |suffix|]) == r)
    ensures r.Some? ==> I32_MIN <= r.value <= I32_MAX
  {
    if !StartsWith(key, EVENT_PREFIX) || !EndsWith(key, suffix) then None
    else
      var start := |EVENT_PREFIX|;
      var end := if |key| >= |suffix| then |key| - |suffix| else 0;  // saturating_sub
      if start <= end then ParseI32(key[start..end]) else None
  }

  // ----- key builders -----

  function ScoresKey(eventId: int): string { "events/" + IntToString(eventId) + "/scores.json" }
  function EspnCacheKey(eventId: int): string { "cache/espn/" + IntToString(eventId) + ".json" }

  /** The KV key of one part of an event: "event:{id}:{part}". */
  function EventKey(eventId: int, part: string): string { EVENT_PREFIX + IntToString(eventId) + ":" + part }

  function KvEventDetailsKey(eventId: int): string { EventKey(eventId, "details") }
  function KvGolfersKey(eventId: int): string { EventKey(eventId, "golfers") }
  function KvPlayerFactorsKey(eventId: int): string { EventKey(eventId, "player_factors") }
  function KvLastRefreshKey(eventId: int): string { EventKey(eventId, "last_refresh") }
  function KvSeededAtKey(eventId: int, suffix: string): string { EventKey(eventId, suffix + ":seeded_at") }
  function KvForceEspnFailKey(eventId: int): string { EventKey(eventId, "force_espn_fail") }
  function KvTestLockKey(eventId: int): string { EventKey(eventId, "test_lock") }
  function KvTestLockPrefix(): string { EVENT_PREFIX }

  /** All the KV keys of an event. */
  function KvKeys(eventId: int, seededSuffix: string): seq<string> {
    [KvEventDetailsKey(eventId), KvGolfersKey(eventId), KvPlayerFactorsKey(eventId), KvLastRefreshKey(eventId),
     KvSeededAtKey(eventId, seededSuffix), KvForceEspnFailKey(eventId), KvTestLockKey(eventId)]
  }

  /** Every KV key of an event starts with "event:{id}:", which also starts with the test-lock prefix. */
  lemma KvKeysHaveEventPrefix(eventId: int, seededSuffix: string)
    ensures forall k :: k in KvKeys(eventId, seededSuffix) ==>
      StartsWith(k, EVENT_PREFIX + IntToString(eventId) + ":") && StartsWith(k, KvTestLockPrefix())
  {
    var parts := ["details", "golfers", "player_factors", "last_refresh", seededSuffix + ":seeded_at", "force_espn_fail", "test_lock"];
    forall i | 0 <= i < 7 ensures KvKeys(eventId, seededSuffix)[i] == EventKey(eventId, parts[i]) {
    }
    forall i | 0 <= i < 7
      ensures StartsWith(EventKey(eventId, parts[i]), EVENT_PREFIX + IntToString(eventId) + ":")
      ensures StartsWith(EventKey(eventId, parts[i]), KvTestLockPrefix())
    {
      EventKeyPrefix(eventId, parts[i]);
    }
  }

  lemma EventKeyPrefix(eventId: int, part: string)
    ensures StartsWith(EventKey(eventId, part), EVENT_PREFIX + IntToString(eventId) + ":")
    ensures StartsWith(EventKey(eventId, part), EVENT_PREFIX)
  {
    var p := EVENT_PREFIX + IntToString(eventId) + ":";
    var k := EventKey(eventId, part);
    assert k == p + part;
    assert k[..|p|] == p;
    assert k[..|EVENT_PREFIX|] == p[..|EVENT_PREFIX|];
  }

  /** Keys of the same part for different events differ. */
  lemma EventKeyInjective(a: int, b: int, part: string)
    requires EventKey(a, part) == EventKey(b, part)
    ensures a == b
  {
    MiddleInjective(EVENT_PREFIX, IntToString(a), IntToString(b), ":", part);
    IntToStringInjective(a, b);
  }

  /** Strings built the same way around a middle part agree in the middle. */
  lemma MiddleInjective(p: string, x: string, y: string, c: string, t: string)
    requires p + x + c + t == p + y + c + t
    ensures x == y
  {
    assert |x| == |y|;
    assert x == (p + x + c + t)[|p|..|p| + |x|];
    assert y == (p + y + c + t)[|p|..|p| + |y|];
  }

  /** Each KV key builder is injective in the event id. */
  lemma KvKeyBuildersInjective(a: int, b: int, seededSuffix: string)
    requires a != b
    ensures forall i :: 0 <= i < 7 ==> KvKeys(a, seededSuffix)[i] != KvKeys(b, seededSuffix)[i]
  {
    forall i | 0 <= i < 7 ensures KvKeys(a, seededSuffix)[i] != KvKeys(b, seededSuffix)[i] {
      var parts := ["details", "golfers", "player_factors", "last_refresh", seededSuffix + ":seeded_at", "force_espn_fail", "test_lock"];
      assert KvKeys(a, seededSuffix)[i] == EventKey(a, parts[i]);
      assert KvKeys(b, seededSuffix)[i] == EventKey(b, parts[i]);
      if EventKey(a, parts[i]) == EventKey(b, parts[i]) {
        EventKeyInjective(a, b, parts[i]);
      }
    }
  }

  /** The event id is read back from the key of any part, given that part as the suffix. */
  lemma EventKeyRoundTrip(eventId: int, part: string)
    requires I32_MIN <= eventId <= I32_MAX
    ensures ParseEventId(EventKey(eventId, part), ":" + part) == Some(eventId)
  {
    var key := EventKey(eventId, part);
    var digits := IntToString(eventId);
    var suffix := ":" + part;
    assert key == EVENT_PREFIX + digits + suffix;
    assert StartsWith(key, EVENT_PREFIX) by { assert key[..|EVENT_PREFIX|] == EVENT_PREFIX; }
    assert EndsWith(key, suffix) by { assert key[|key| - |suffix|..] == suffix; }
    assert key[|EVENT_PREFIX|..|key| - |suffix|] == digits;
    ParseIntToString(eventId, I32_MIN, I32_MAX);
  }

  /** Details keys round-trip through `parse_event_id` with ":details". */
  lemma DetailsKeyRoundTrip(eventId: int)
    requires I32_MIN <= eventId <= I32_MAX
    ensures ParseEventId(KvEventDetailsKey(eventId), ":details") == Some(eventId)
  {
    EventKeyRoundTrip(eventId, "details");
  }

  /** The R2 object keys are distinct per event and never fall under the KV "event:" prefix. */
  lemma R2KeysPerEvent(a: int, b: int)
    ensures ScoresKey(a) == ScoresKey(b) ==> a == b
    ensures EspnCacheKey(a) == EspnCacheKey(b) ==> a == b
    ensures !StartsWith(ScoresKey(a), EVENT_PREFIX)
  {
    if ScoresKey(a) == ScoresKey(b) {
      var sa, sb := ScoresKey(a), ScoresKey(b);
      var tail := "/scores.json";
      assert IntToString(a) == sa[7..|sa| - |tail|];
      assert IntToString(b) == sb[7..|sb| - |tail|];
      IntToStringInjective(a, b);
    }
    if EspnCacheKey(a) == EspnCacheKey(b) {
      var sa, sb := EspnCacheKey(a), EspnCacheKey(b);
      assert IntToString(a) == sa[11..|sa| - 5];
      assert IntToString(b) == sb[11..|sb| - 5];
      IntToStringInjective(a, b);
    }
    assert ScoresKey(a)[5] == 's' && EVENT_PREFIX[5] == ':';
  }

  /** When "event:" and the suffix overlap in the key there is no id between them. */
  lemma ParseEventIdOverlap(key: string, suffix: string)
    requires |key| < |EVENT_PREFIX| + |suffix|
    ensures ParseEventId(key, suffix) == None
  {
  }

  // ----- event listing -----

  datatype EventDetailsDoc = EventDetailsDoc(eventName: string, scoreViewStepFactor: real, refreshFromEspn: int,
    endDate: Option<string>)
  datatype EventListing = EventListing(eventId: int, eventName: string, scoreViewStepFactor: real, refreshFromEspn: int)

  function ListingOf(eventId: int, doc: EventDetailsDoc): EventListing {
    EventListing(eventId, doc.eventName, doc.scoreViewStepFactor, doc.refreshFromEspn)
  }

  /**
   * The listings of the details keys among `keys`, in key order, or the
   * first failure to read a details document.  `docs` stands for the KV
   * read of a key.
   */
  function Listings(keys: seq<string>, docs: string -> Result<EventDetailsDoc, string>): Result<seq<EventListing>, string> {
    if |keys| == 0 then Ok([])
    else
      var n := |keys| - 1;
      match Listings(keys[..n], docs)
      case Err(e) => Err(e)
      case Ok(prev) =>
        match ParseEventId(keys[n], ":details")
        case None => Ok(prev)
        case Some(id) =>
          match docs(keys[n])
          case Err(e) => Err(e)
          case Ok(doc) => Ok(prev + [ListingOf(id, doc)])
  }

  predicate EventIdLeq(a: EventListing, b: EventListing) { a.eventId <= b.eventId }

  /**
   * `list_event_listings` given the outcome of listing the "event:" keys: that
   * listing's error, or the listings of the details keys, stably sorted by
   * event id.
   */
  method ListEventListings(listed: Result<seq<string>, string>, docs: string -> Result<EventDetailsDoc, string>)
    returns (r: Result<seq<EventListing>, string>)
    ensures listed.Err? ==> r == Err(listed.error)
    ensures listed.Ok? ==> (r.Err? <==> Listings(listed.value, docs).Err?)
    ensures listed.Ok? && r.Err? ==> r == Listings(listed.value, docs)
    ensures listed.Ok? && r.Ok? ==> r.value == SortBy(Listings(listed.value, docs).value, EventIdLeq)
  {
    if listed.Err? {
      return Err(listed.error);
    }
    var keys := listed.value;
    var entries: seq<EventListing> := [];
    for i := 0 to |keys|
      invariant Listings(keys[..i], docs) == Ok(entries)
    {
      assert keys[..i + 1][..i] == keys[..i];
      var parsed := ParseEventId(keys[i], ":details");
      if parsed.None? {
        continue;
      }
      var doc := docs(keys[i]);
      if doc.Err? {
        r := Err(doc.error);
        PrefixErrorPersists(keys, docs, i + 1);
        return;
      }
      entries := entries + [ListingOf(parsed.value, doc.value)];
    }
    assert keys[..|keys|] == keys;
    r := Ok(SortBy(entries, EventIdLeq));
  }

  /** Once a prefix of the keys fails, the whole list fails with the same error. */
  lemma {:induction false} PrefixErrorPersists(keys: seq<string>, docs: string -> Result<EventDetailsDoc, string>, n: nat)
    requires n <= |keys| && Listings(keys[..n], docs).Err?
    ensures Listings(keys, docs) == Listings(keys[..n], docs)
    decreases |keys| - n
  {
    if n < |keys| {
      assert keys[..n + 1][..n] == keys[..n];
      PrefixErrorPersists(keys, docs, n + 1);
    } else {
      assert keys[..n] == keys;
    }
  }

  /** Every listing comes from a details key of the list, with the id parsed from it. */
  lemma {:induction false} ListingsFromDetailsKeys(keys: seq<string>, docs: string -> Result<EventDetailsDoc, string>)
    requires Listings(keys, docs).Ok?
    ensures forall e :: e in Listings(keys, docs).value ==>
      exists i :: 0 <= i < |keys| && ParseEventId(keys[i], ":details") == Some(e.eventId)
    ensures |Listings(keys, docs).value| <= |keys|
  {
    if |keys| > 0 {
      var n := |keys| - 1;
      ListingsFromDetailsKeys(keys[..n], docs);
      forall e | e in Listings(keys, docs).value
        ensures exists i :: 0 <= i < |keys| && ParseEventId(keys[i], ":details") == Some(e.eventId)
      {
        if e in Listings(keys[..n], docs).value {
          var i :| 0 <= i < n && ParseEventId(keys[..n][i], ":details") == Some(e.eventId);
          assert keys[..n][i] == keys[i];
        }
      }
    }
  }

  /** The listing is ordered by event id and holds exactly the listings of the details keys. */
  lemma ListingSortedPermutation(keys: seq<string>, docs: string -> Result<EventDetailsDoc, string>)
    requires Listings(keys, docs).Ok?
    ensures SortedBy(SortBy(Listings(keys, docs).value, EventIdLeq), EventIdLeq)
    ensures multiset(SortBy(Listings(keys, docs).value, EventIdLeq)) == multiset(Listings(keys, docs).value)
  {
    SortBySorted(Listings(keys, docs).value, EventIdLeq);
    SortByPermutes(Listings(keys, docs).value, EventIdLeq);
  }

  // ----- auth tokens -----

  /** The key holds an auth-token document whose read succeeds and that lists the token. */
  predicate GrantsToken(key: string, docs: string -> Result<seq<string>, string>, token: string) {
    EndsWith(key, ":auth_tokens") && docs(key).Ok? && token in docs(key).value
  }

  /**
   * `auth_token_valid` given the outcome of listing the "event:" keys: that
   * listing's error, or true iff some ":auth_tokens" document lists the
   * token; documents that cannot be read are skipped.
   */
  method AuthTokenValid(listed: Result<seq<string>, string>, docs: string -> Result<seq<string>, string>, token: string)
    returns (valid: Result<bool, string>)
    ensures listed.Err? ==> valid == Err(listed.error)
    ensures listed.Ok? ==> valid.Ok?
    ensures listed.Ok? ==>
      (valid.value <==> exists i :: 0 <= i < |listed.value| && GrantsToken(listed.value[i], docs, token))
  {
    if listed.Err? {
      return Err(listed.error);
    }
    var keys := listed.value;
    for i := 0 to |keys|
      invariant forall j :: 0 <= j < i ==> !GrantsToken(keys[j], docs, token)
    {
      var key := keys[i];
      if !EndsWith(key, ":auth_tokens") {
        continue;
      }
      var doc := docs(key);
      if doc.Err? {
        continue;
      }
      if token in doc.value {
        return Ok(true);
      }
    }
    return Ok(false);
  }
}
