/**
 * How rusty-golf-core/src/espn/mod.rs settles an event's scores: the order
 * in which it tries the cache, ESPN, the stored rows and the fallback, and
 * how fetched and stored rows are merged over the expected golfers.
 */
module EspnMerge {
  import opened Wrappers
  import opened ScoreModel
  import opened ScoreContext

  /** The rows keyed by eup id, as `collect` into a `HashMap` builds it: a later row replaces an earlier one. */
  function ById(scores: seq<Scores>): map<int, Scores> {
    if |scores| == 0 then map[]
    else
      var n := |scores| - 1;
      ById(scores[..n])[scores[n].eupId := scores[n]]
  }

  /** The last row with eup id k, searching from the end. */
  function LastWith(scores: seq<Scores>, k: int): (r: Option<Scores>)
    ensures r.Some? ==> r.value in scores && r.value.eupId == k
    ensures r.None? <==> forall i :: 0 <= i < |scores| ==> scores[i].eupId != k
  {
    if |scores| == 0 then None
    else if scores[|scores| - 1].eupId == k then Some(scores[|scores| - 1])
    else LastWith(scores[..|scores| - 1], k)
  }

  /** The map holds, for every eup id, the last row with that id. */
  lemma {:induction false} ByIdIsLastWith(scores: seq<Scores>, k: int)
    ensures k in ById(scores) <==> LastWith(scores, k).Some?
    ensures k in ById(scores) ==> ById(scores)[k] == LastWith(scores, k).value
  {
    if |scores| > 0 {
      ByIdIsLastWith(scores[..|scores| - 1], k);
    }
  }

  /** A map lookup as an Option. */
  function Get(m: map<int, Scores>, k: int): Option<Scores> {
    if k in m then Some(m[k]) else None
  }

  /** The row kept for one expected golfer: the fetched one, else the stored one, else the expected one. */
  function MergeOne(expected: Scores, fetchedById: map<int, Scores>, existingById: map<int, Scores>): Scores {
    match Get(fetchedById, expected.eupId)
    case Some(f) => f
    case None => Get(existingById, expected.eupId).GetOr(expected)
  }

  /** `merge_scores_for_event`. */
  function MergeScoresForEvent(expected: seq<Scores>, fetched: seq<Scores>, existing: Option<seq<Scores>>): (r: seq<Scores>)
    ensures |r| == |expected|
    ensures forall i :: 0 <= i < |expected| ==> r[i].eupId == expected[i].eupId
  {
    var fetchedById := ById(fetched);
    var existingById := ById(existing.GetOr([]));
    ByIdKeys(fetched);
    ByIdKeys(existing.GetOr([]));
    seq(|expected|, i requires 0 <= i < |expected| => MergeOne(expected[i], fetchedById, existingById))
  }

  /** Every entry of the map is stored under its own eup id. */
  lemma {:induction false} ByIdKeys(scores: seq<Scores>)
    ensures forall k :: k in ById(scores) ==> ById(scores)[k].eupId == k
  {
    if |scores| > 0 {
      ByIdKeys(scores[..|scores| - 1]);
    }
  }

  /**
   * Each merged row is the last fetched row with the golfer's eup id when
   * there is one, otherwise the last stored row with it, otherwise the
   * expected row itself.
   */
  lemma MergePrefersFetchedThenExisting(expected: seq<Scores>, fetched: seq<Scores>, existing: Option<seq<Scores>>, i: int)
    requires 0 <= i < |expected|
    ensures var k := expected[i].eupId;
      MergeScoresForEvent(expected, fetched, existing)[i] ==
        match LastWith(fetched, k)
        case Some(f) => f
        case None => LastWith(existing.GetOr([]), k).GetOr(expected[i])
  {
    var k := expected[i].eupId;
    ByIdIsLastWith(fetched, k);
    ByIdIsLastWith(existing.GetOr([]), k);
  }

  /** With nothing fetched and nothing stored the expected rows come back unchanged. */
  lemma MergeWithNothingIsExpected(expected: seq<Scores>)
    ensures MergeScoresForEvent(expected, [], None) == expected
  {
  }

  // ----- the order of sources in fetch_scores_from_espn -----

  /** What the fetch ends with: rows returned as they are, rows to store and reload, or an error. */
  datatype FetchOutcome<E> = Returned(cached: ScoresAndLastRefresh) | Stored(merged: seq<Scores>) | Failed(error: E)

  /**
   * `fetch_scores_from_espn`, with the outcome of each storage or ESPN call
   * passed in: `cached` is the cache lookup, `fetched` the ESPN download and
   * processing, `storedOnError` the database read tried when that fails,
   * `fallback` the client's fallback rows, and `existing` the database read
   * before merging.
   */
  function FetchScoresFromEspn<E>(
    expected: seq<Scores>, useCache: bool,
    cached: Result<Option<ScoresAndLastRefresh>, E>,
    fetched: Result<seq<Scores>, E>,
    storedOnError: Result<ScoresAndLastRefresh, E>,
    fallback: Result<Option<seq<Scores>>, E>,
    existing: Result<ScoresAndLastRefresh, E>): (r: FetchOutcome<E>)
    ensures r.Stored? ==> |r.merged| == |expected|
  {
    if useCache && cached.Err? then Failed(cached.error)
    else if useCache && cached.value.Some? then Returned(cached.value.value)
    else
      var rows :=
        match fetched
        case Ok(f) => Ok(f)
        case Err(err) =>
          if storedOnError.Ok? then Err(Returned(storedOnError.value))
          else if fallback.Err? then Err(Failed(fallback.error))
          else if fallback.value.Some? then Ok(fallback.value.value)
          else Err(Failed(err));
      match rows
      case Err(early) => early
      case Ok(f) =>
        var existingRows := if existing.Ok? then Some(existing.value.scoreStruct) else None;
        Stored(MergeScoresForEvent(expected, f, existingRows))
  }

  /** A usable cache entry is returned whatever ESPN, the database or the fallback would give. */
  lemma CacheHitSkipsFetch<E>(expected: seq<Scores>, c: ScoresAndLastRefresh,
    fetched: Result<seq<Scores>, E>, storedOnError: Result<ScoresAndLastRefresh, E>,
    fallback: Result<Option<seq<Scores>>, E>, existing: Result<ScoresAndLastRefresh, E>)
    ensures FetchScoresFromEspn(expected, true, Ok(Some(c)), fetched, storedOnError, fallback, existing) == Returned(c)
  {
  }

  /**
   * When ESPN fails, the stored rows come first, then the fallback rows;
   * the download's error is returned only when neither is available, and
   * a failing fallback returns its own error.
   */
  lemma FetchErrorOrder<E>(expected: seq<Scores>, useCache: bool, cached: Result<Option<ScoresAndLastRefresh>, E>,
    err: E, storedOnError: Result<ScoresAndLastRefresh, E>,
    fallback: Result<Option<seq<Scores>>, E>, existing: Result<ScoresAndLastRefresh, E>)
    requires !useCache || cached == Ok(None)
    ensures var r := FetchScoresFromEspn(expected, useCache, cached, Err(err), storedOnError, fallback, existing);
      && (storedOnError.Ok? ==> r == Returned(storedOnError.value))
      && (storedOnError.Err? && fallback.Err? ==> r == Failed(fallback.error))
      && (storedOnError.Err? && fallback == Ok(None) ==> r == Failed(err))
      && (storedOnError.Err? && fallback.Ok? && fallback.value.Some? ==>
            r == Stored(MergeScoresForEvent(expected, fallback.value.value,
                          if existing.Ok? then Some(existing.value.scoreStruct) else None)))
  {
  }

  /**
   * When the cache is not used or holds nothing and ESPN answers, the rows to
   * store are the fetched rows merged over the stored ones, whatever the
   * error-path read and the fallback would give: row i is the last fetched
   * row with its eup id, else the last stored one, else the expected row.
   */
  lemma FetchSuccessMerges<E>(expected: seq<Scores>, useCache: bool, cached: Result<Option<ScoresAndLastRefresh>, E>,
    f: seq<Scores>, storedOnError: Result<ScoresAndLastRefresh, E>,
    fallback: Result<Option<seq<Scores>>, E>, existing: Result<ScoresAndLastRefresh, E>)
    requires !useCache || cached == Ok(None)
    ensures var existingRows := if existing.Ok? then Some(existing.value.scoreStruct) else None;
      FetchScoresFromEspn(expected, useCache, cached, Ok(f), storedOnError, fallback, existing)
        == Stored(MergeScoresForEvent(expected, f, existingRows))
    ensures var r := FetchScoresFromEspn(expected, useCache, cached, Ok(f), storedOnError, fallback, existing);
      var stored := if existing.Ok? then existing.value.scoreStruct else [];
      forall i :: 0 <= i < |expected| ==>
        r.merged[i] ==
          match LastWith(f, expected[i].eupId)
          case Some(row) => row
          case None => LastWith(stored, expected[i].eupId).GetOr(expected[i])
  {
    var existingRows := if existing.Ok? then Some(existing.value.scoreStruct) else None;
    forall i | 0 <= i < |expected| {
      MergePrefersFetchedThenExisting(expected, f, existingRows, i);
    }
  }

  /** The download's error surfaces only when the stored read failed and there were no fallback rows. */
  lemma FetchFailsOnlyAsLastResort<E>(expected: seq<Scores>, useCache: bool, cached: Result<Option<ScoresAndLastRefresh>, E>,
    fetched: Result<seq<Scores>, E>, storedOnError: Result<ScoresAndLastRefresh, E>,
    fallback: Result<Option<seq<Scores>>, E>, existing: Result<ScoresAndLastRefresh, E>)
    requires FetchScoresFromEspn(expected, useCache, cached, fetched, storedOnError, fallback, existing).Failed?
    ensures (useCache && cached.Err?) || (fetched.Err? && storedOnError.Err? && (fallback.Err? || fallback.value.None?))
  {
  }
}
