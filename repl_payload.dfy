/**
 * Building the event-file entry the REPL writes for a new event
 * (rusty-golf-setup/src/repl/payload.rs): one event-user-player row per
 * selection, one golfer per distinct selected espn id, and the event object
 * appended after the events already in the file.
 */
module ReplPayload {
  import opened Wrappers
  import opened Text
  import opened Json
  import opened Collections

  datatype GolferSelection = GolferSelection(bettor: string, golferEspnId: int)

  /** One `event_user_player` row. */
  function EventUserPlayerJson(s: GolferSelection): Json {
    JObject([("bettor", JString(s.bettor)), ("golfer_espn_id", JInt(s.golferEspnId))])
  }

  /** `build_event_user_player`: a row per selection, in order. */
  function BuildEventUserPlayer(selections: seq<GolferSelection>): (r: seq<Json>)
    ensures |r| == |selections|
    ensures forall i :: 0 <= i < |r| ==> r[i] == EventUserPlayerJson(selections[i])
  {
    seq(|selections|, i requires 0 <= i < |selections| => EventUserPlayerJson(selections[i]))
  }

  /** Each row reads back as its selection. */
  lemma EventUserPlayerReadsBack(s: GolferSelection)
    requires I64_MIN <= s.golferEspnId <= I64_MAX
    ensures GetStr(EventUserPlayerJson(s), "bettor") == Some(s.bettor)
    ensures GetI64(EventUserPlayerJson(s), "golfer_espn_id") == Some(s.golferEspnId)
  {
    LookupAt(EventUserPlayerJson(s).members, 1);
  }

  /** The golfers' names by espn id, as `collect` into a `HashMap` leaves them: the last pair wins. */
  function NamesById(golfers: seq<(string, int)>): map<int, string> {
    if |golfers| == 0 then map[]
    else
      var n := |golfers| - 1;
      NamesById(golfers[..n])[golfers[n].1 := golfers[n].0]
  }

  /** The espn ids of the selections, in order. */
  function SelectedIds(selections: seq<GolferSelection>): (r: seq<int>)
    ensures |r| == |selections| && forall i :: 0 <= i < |r| ==> r[i] == selections[i].golferEspnId
  {
    seq(|selections|, i requires 0 <= i < |selections| => selections[i].golferEspnId)
  }

  function GolferJson(name: string, espnId: int): Json {
    JObject([("espn_id", JInt(espnId)), ("name", JString(name))])
  }

  /** Every selected id, once deduplicated, is among the golfers when every selection is. */
  lemma SelectedIdsListed(golfers: seq<(string, int)>, selections: seq<GolferSelection>)
    requires forall i :: 0 <= i < |selections| ==> selections[i].golferEspnId in NamesById(golfers)
    ensures forall k :: 0 <= k < |Dedup(SelectedIds(selections))| ==> Dedup(SelectedIds(selections))[k] in NamesById(golfers)
  {
    var ids := Dedup(SelectedIds(selections));
    DedupCorrect(SelectedIds(selections));
    forall k | 0 <= k < |ids|
      ensures ids[k] in NamesById(golfers)
    {
      assert ids[k] in ids;
    }
  }

  /**
   * The golfers payload when every selected id is among the golfers: for
   * each distinct selected id, in the order of first selection, the golfer
   * object with the name the golfers list gives it.
   */
  function GolfersPayload(golfers: seq<(string, int)>, selections: seq<GolferSelection>): seq<Json>
    requires forall i :: 0 <= i < |selections| ==> selections[i].golferEspnId in NamesById(golfers)
  {
    var names := NamesById(golfers);
    var ids := Dedup(SelectedIds(selections));
    SelectedIdsListed(golfers, selections);
    seq(|ids|, k requires 0 <= k < |ids| => GolferJson(names[ids[k]], ids[k]))
  }

  /** Selection i names a golfer that is not in the list, and is the first to do so. */
  predicate FirstMissing(selections: seq<GolferSelection>, names: map<int, string>, i: int) {
    0 <= i < |selections| && selections[i].golferEspnId !in names &&
    forall j :: 0 <= j < i ==> selections[j].golferEspnId in names
  }

  /**
   * `build_golfers_payload`: a golfer object for each distinct selected espn
   * id, in the order of first selection, or an error naming the first
   * selected id that is not among the golfers.
   */
  method BuildGolfersPayload(golfers: seq<(string, int)>, selections: seq<GolferSelection>) returns (r: Result<seq<Json>, string>)
    ensures var names := NamesById(golfers); var ids := Dedup(SelectedIds(selections));
      && (r.Err? <==> exists i :: 0 <= i < |selections| && selections[i].golferEspnId !in names)
      && (r.Err? ==> exists i :: (FirstMissing(selections, names, i) &&
            r.error == "missing golfer " + IntToString(selections[i].golferEspnId)))
      && (r.Ok? ==> (|r.value| == |ids| &&
            forall k :: 0 <= k < |ids| ==> ids[k] in names && r.value[k] == GolferJson(names[ids[k]], ids[k])))
      && (r.Ok? ==> r.value == GolfersPayload(golfers, selections))
  {
    var golfersById: map<int, string> := map[];
    for i := 0 to |golfers|
      invariant golfersById == NamesById(golfers[..i])
    {
      assert golfers[..i + 1][..i] == golfers[..i];
      golfersById := golfersById[golfers[i].1 := golfers[i].0];
    }
    assert golfers[..|golfers|] == golfers;

    var selected := SelectGolfers(golfersById, selections);
    if selected.Err? {
      return Err(selected.error);
    }
    var pairs := selected.value;
    var out := seq(|pairs|, k requires 0 <= k < |pairs| => GolferJson(pairs[k].0, pairs[k].1));
    assert out == GolfersPayload(golfers, selections);
    return Ok(out);
  }

  /** The loop over the selections: (name, id) for each id not seen before, or the first missing id's error. */
  method SelectGolfers(golfersById: map<int, string>, selections: seq<GolferSelection>)
    returns (r: Result<seq<(string, int)>, string>)
    ensures var ids := Dedup(SelectedIds(selections));
      && (r.Err? <==> exists i :: 0 <= i < |selections| && selections[i].golferEspnId !in golfersById)
      && (r.Err? ==> exists i :: (FirstMissing(selections, golfersById, i) &&
            r.error == "missing golfer " + IntToString(selections[i].golferEspnId)))
      && (r.Ok? ==> (Seconds(r.value) == ids &&
            forall k :: 0 <= k < |r.value| ==> r.value[k].1 in golfersById && r.value[k].0 == golfersById[r.value[k].1]))
  {
    var ids := SelectedIds(selections);
    var seenGolfers: set<int> := {};
    var selectedGolfers: seq<(string, int)> := [];
    assert ids[..0] == [];
    for i := 0 to |selections|
      invariant SelectedSoFar(golfersById, ids, i, seenGolfers, selectedGolfers)
    {
      var missing;
      missing, seenGolfers, selectedGolfers := SelectOne(golfersById, ids, i, seenGolfers, selectedGolfers);
      if missing {
        assert FirstMissing(selections, golfersById, i);
        return Err("missing golfer " + IntToString(selections[i].golferEspnId));
      }
    }
    assert ids[..|selections|] == ids;
    return Ok(selectedGolfers);
  }

  /**
   * The loop's state after the first i selections: the ids seen, all of
   * them among the golfers, and the (name, id) pairs of the distinct ones.
   */
  ghost predicate SelectedSoFar(golfersById: map<int, string>, ids: seq<int>, i: int,
    seenGolfers: set<int>, selectedGolfers: seq<(string, int)>)
  {
    && 0 <= i <= |ids|
    && (forall x :: x in seenGolfers <==> x in ids[..i])
    && (forall j :: 0 <= j < i ==> ids[j] in golfersById)
    && Seconds(selectedGolfers) == Dedup(ids[..i])
    && (forall k :: 0 <= k < |selectedGolfers| ==>
          selectedGolfers[k].1 in golfersById && selectedGolfers[k].0 == golfersById[selectedGolfers[k].1])
  }

  /** One pass of the loop: a new id is looked up and its pair pushed; a missing one stops the loop. */
  method SelectOne(golfersById: map<int, string>, ids: seq<int>, i: int,
    seenGolfers: set<int>, selectedGolfers: seq<(string, int)>)
    returns (missing: bool, seen': set<int>, selected': seq<(string, int)>)
    requires i < |ids| && SelectedSoFar(golfersById, ids, i, seenGolfers, selectedGolfers)
    ensures missing <==> ids[i] !in golfersById
    ensures !missing ==> SelectedSoFar(golfersById, ids, i + 1, seen', selected')
  {
    var id := ids[i];
    DedupStep(ids, i);
    PrefixGrows(ids, i);
    if id in seenGolfers {
      return false, seenGolfers, selectedGolfers;
    }
    seen' := seenGolfers + {id};
    if id !in golfersById {
      return true, seen', selectedGolfers;
    }
    var chosen := (golfersById[id], id);
    SecondsSnoc(selectedGolfers, chosen);
    selected' := selectedGolfers + [chosen];
    missing := false;
  }

  /** The espn ids of the chosen (name, id) pairs. */
  function Seconds(pairs: seq<(string, int)>): (r: seq<int>)
    ensures |r| == |pairs| && forall k :: 0 <= k < |pairs| ==> r[k] == pairs[k].1
  {
    seq(|pairs|, k requires 0 <= k < |pairs| => pairs[k].1)
  }

  /** The items of the prefix one longer are those of the prefix and the next item. */
  lemma PrefixGrows(ids: seq<int>, i: int)
    requires 0 <= i < |ids|
    ensures forall x :: x in ids[..i + 1] <==> x in ids[..i] || x == ids[i]
  {
    assert ids[..i + 1] == ids[..i] + [ids[i]];
  }

  lemma SecondsSnoc(pairs: seq<(string, int)>, p: (string, int))
    ensures Seconds(pairs + [p]) == Seconds(pairs) + [p.1]
  {
  }

  lemma DedupStep(ids: seq<int>, i: int)
    requires 0 <= i < |ids|
    ensures Dedup(ids[..i + 1]) == if ids[i] in ids[..i] then Dedup(ids[..i]) else Dedup(ids[..i]) + [ids[i]]
  {
    assert ids[..i + 1][..i] == ids[..i];
  }

  /** The payload lists every selected golfer exactly once, in the order they were first selected. */
  lemma GolfersPayloadIds(selections: seq<GolferSelection>)
    ensures var ids := Dedup(SelectedIds(selections));
      && Distinct(ids)
      && (forall i :: 0 <= i < |selections| ==> selections[i].golferEspnId in ids)
      && (forall k :: 0 <= k < |ids| ==> ids[k] in SelectedIds(selections))
      && (forall k, m :: 0 <= k < m < |ids| ==>
            FirstIndex(SelectedIds(selections), ids[k]) < FirstIndex(SelectedIds(selections), ids[m]))
  {
    var all := SelectedIds(selections);
    DedupCorrect(all);
    forall i | 0 <= i < |selections|
      ensures selections[i].golferEspnId in Dedup(all)
    {
      assert all[i] in all;
    }
    forall k, m | 0 <= k < m < |Dedup(all)|
      ensures FirstIndex(all, Dedup(all)[k]) < FirstIndex(all, Dedup(all)[m])
    {
      DedupOrder(all, k, m);
    }
  }

  /** `build_new_event_json`. */
  function BuildNewEventJson(eventId: int, year: int, eventName: string, bettors: seq<string>,
    golfers: seq<Json>, eventUserPlayer: seq<Json>): Json
  {
    JObject([
      ("data_to_fill_if_event_and_year_missing", JArray([
        JObject([
          ("bettors", JArray(BettorsJson(bettors))),
          ("event_user_player", JArray(eventUserPlayer)),
          ("golfers", JArray(golfers))
        ])
      ])),
      ("event", JInt(eventId)),
      ("name", JString(eventName)),
      ("score_view_step_factor", JFloat(3.0)),
      ("year", JInt(year))
    ])
  }

  /** The bettor names as a JSON array's items. */
  function BettorsJson(bettors: seq<string>): seq<Json> {
    seq(|bettors|, i requires 0 <= i < |bettors| => JString(bettors[i]))
  }

  /** The new event has step factor 3.0 and a single data-to-fill block holding the three lists. */
  lemma NewEventShape(eventId: int, year: int, eventName: string, bettors: seq<string>,
    golfers: seq<Json>, eventUserPlayer: seq<Json>)
    requires I64_MIN <= eventId <= I64_MAX && I64_MIN <= year <= I64_MAX
    ensures var e := BuildNewEventJson(eventId, year, eventName, bettors, golfers, eventUserPlayer);
      && GetI64(e, "event") == Some(eventId)
      && GetI64(e, "year") == Some(year)
      && GetStr(e, "name") == Some(eventName)
      && Get(e, "score_view_step_factor") == Some(JFloat(3.0))
      && GetArray(e, "data_to_fill_if_event_and_year_missing").Some?
      && |GetArray(e, "data_to_fill_if_event_and_year_missing").value| == 1
      && GetArray(GetArray(e, "data_to_fill_if_event_and_year_missing").value[0], "bettors") == Some(BettorsJson(bettors))
      && GetArray(GetArray(e, "data_to_fill_if_event_and_year_missing").value[0], "golfers") == Some(golfers)
      && GetArray(GetArray(e, "data_to_fill_if_event_and_year_missing").value[0], "event_user_player") == Some(eventUserPlayer)
  {
    var e := BuildNewEventJson(eventId, year, eventName, bettors, golfers, eventUserPlayer);
    LookupAt(e.members, 0);
    LookupAt(e.members, 1);
    LookupAt(e.members, 2);
    LookupAt(e.members, 3);
    LookupAt(e.members, 4);
    var fill := e.members[0].1.items[0];
    LookupAt(fill.members, 0);
    LookupAt(fill.members, 1);
    LookupAt(fill.members, 2);
  }

  /**
   * `write_event_payload` without its file input and output: the events
   * already in the file (`existing`) with the new event appended, or the
   * golfers payload's error. The year is the current one, passed in.
   */
  method WriteEventPayload(existing: seq<Json>, year: int, eventId: int, eventName: string,
    golfers: seq<(string, int)>, bettors: seq<string>, selections: seq<GolferSelection>)
    returns (r: Result<seq<Json>, string>)
    ensures r.Err? <==> exists i :: 0 <= i < |selections| && selections[i].golferEspnId !in NamesById(golfers)
    ensures r.Err? ==> exists i :: (FirstMissing(selections, NamesById(golfers), i) &&
      r.error == "missing golfer " + IntToString(selections[i].golferEspnId))
    ensures r.Ok? ==> (r.value == existing +
      [BuildNewEventJson(eventId, year, eventName, bettors, GolfersPayload(golfers, selections), BuildEventUserPlayer(selections))])
    ensures r.Ok? ==> |r.value| == |existing| + 1 && r.value[..|existing|] == existing
    ensures r.Ok? ==> (r.value[|existing|].JObject? &&
      Get(r.value[|existing|], "score_view_step_factor") == Some(JFloat(3.0)))
  {
    var eventUserPlayer := BuildEventUserPlayer(selections);
    var golfersPayload := BuildGolfersPayload(golfers, selections);
    if golfersPayload.Err? {
      return Err(golfersPayload.error);
    }
    var newEvent := BuildNewEventJson(eventId, year, eventName, bettors, golfersPayload.value, eventUserPlayer);
    LookupAt(newEvent.members, 3);
    var payload := existing + [newEvent];
    assert payload[..|existing|] == existing;
    return Ok(payload);
  }
}
