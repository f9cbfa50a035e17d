/**
 * The non-interactive new-event setup (rusty-golf-setup/src/repl/one_shot.rs):
 * resolve each (bettor, golfer name) entry to a golfer of the event, collect
 * the bettors in order of first appearance, and write the event payload.
 * The ESPN event and golfer lists, the existing event file and the year are
 * passed in; the close-match suggestions are passed in as well.
 */
module OneShot {
  import opened Wrappers
  import opened Text
  import opened Json
  import opened Collections
  import opened ReplPayload

  datatype GolferByBettorInput = GolferByBettorInput(bettor: string, golfer: string)

  /** Golfer i is the first with that name. */
  predicate FirstNamed(golfers: seq<(string, int)>, i: int, name: string) {
    0 <= i < |golfers| && golfers[i].0 == name && forall j :: 0 <= j < i ==> golfers[j].0 != name
  }

  function UnknownGolferMessage(golfer: string, suggestions: seq<string>): string {
    if |suggestions| == 0 then "Unknown golfer: " + golfer
    else "Unknown golfer: " + golfer + ". Closest matches: " + Join(suggestions, ", ")
  }

  /**
   * `match_golfer_exact`: the id of the first golfer with exactly that name;
   * otherwise an error naming the golfer and the suggestions, if any.
   */
  function MatchGolferExact(golfers: seq<(string, int)>, golfer: string, suggestions: seq<string>): (r: Result<int, string>)
    ensures r.Ok? <==> exists i :: 0 <= i < |golfers| && golfers[i].0 == golfer
    ensures r.Ok? ==> exists i :: FirstNamed(golfers, i, golfer) && golfers[i].1 == r.value
    ensures r.Err? ==> r.error == UnknownGolferMessage(golfer, suggestions)
  {
    if |golfers| == 0 then Err(UnknownGolferMessage(golfer, suggestions))
    else if golfers[0].0 == golfer then
      assert FirstNamed(golfers, 0, golfer);
      Ok(golfers[0].1)
    else
      var r := MatchGolferExact(golfers[1..], golfer, suggestions);
      assert r.Ok? ==> exists i :: FirstNamed(golfers, i, golfer) && golfers[i].1 == r.value by {
        if r.Ok? {
          var i :| FirstNamed(golfers[1..], i, golfer) && golfers[1..][i].1 == r.value;
          assert FirstNamed(golfers, i + 1, golfer);
        }
      }
      assert r.Ok? <==> exists i :: 0 <= i < |golfers| && golfers[i].0 == golfer by {
        if exists i :: 0 <= i < |golfers| && golfers[i].0 == golfer {
          var i :| 0 <= i < |golfers| && golfers[i].0 == golfer;
          assert golfers[1..][i - 1].0 == golfer;
        }
      }
      r
  }

  /** Two golfers sharing a name resolve to the earlier one. */
  lemma FirstOfSameName(golfers: seq<(string, int)>, golfer: string, suggestions: seq<string>, i: int)
    requires FirstNamed(golfers, i, golfer)
    ensures MatchGolferExact(golfers, golfer, suggestions) == Ok(golfers[i].1)
  {
    var r := MatchGolferExact(golfers, golfer, suggestions);
    var k :| FirstNamed(golfers, k, golfer) && golfers[k].1 == r.value;
    assert k == i;
  }

  function Bettors(entries: seq<GolferByBettorInput>): (r: seq<string>)
    ensures |r| == |entries| && forall i :: 0 <= i < |entries| ==> r[i] == entries[i].bettor
  {
    seq(|entries|, i requires 0 <= i < |entries| => entries[i].bettor)
  }

  /** The error of the first entry whose golfer is unknown. */
  predicate FirstUnknown(golfers: seq<(string, int)>, entries: seq<GolferByBettorInput>, i: int) {
    0 <= i < |entries| && (forall k :: 0 <= k < |golfers| ==> golfers[k].0 != entries[i].golfer) &&
    forall j :: 0 <= j < i ==> exists k :: 0 <= k < |golfers| && golfers[k].0 == entries[j].golfer
  }

  /** The golfer id an entry resolves to, or its error. */
  function Resolve(golfers: seq<(string, int)>, e: GolferByBettorInput, suggest: string -> seq<string>): Result<int, string> {
    MatchGolferExact(golfers, e.golfer, suggest(e.golfer))
  }

  /**
   * The selection loop: the bettors without repeats in order of first
   * appearance, and a selection per entry with its golfer's id, or the
   * error of the first entry whose golfer is unknown.
   */
  method SelectEntries(golfers: seq<(string, int)>, entries: seq<GolferByBettorInput>, suggest: string -> seq<string>)
    returns (r: Result<(seq<string>, seq<GolferSelection>), string>)
    ensures r.Err? <==> exists i :: 0 <= i < |entries| && Resolve(golfers, entries[i], suggest).Err?
    ensures r.Err? ==> exists i :: (FirstUnknown(golfers, entries, i) &&
      r.error == UnknownGolferMessage(entries[i].golfer, suggest(entries[i].golfer)))
    ensures r.Ok? ==> r.value.0 == Dedup(Bettors(entries))
    ensures r.Ok? ==> |r.value.1| == |entries| && forall i :: 0 <= i < |entries| ==>
      r.value.1[i] == GolferSelection(entries[i].bettor, Resolve(golfers, entries[i], suggest).value)
  {
    var bettors := SelectBettors(entries);
    var selections: seq<GolferSelection> := [];
    for i := 0 to |entries|
      invariant SelectedSoFar(golfers, entries, suggest, i, selections)
    {
      var entry := entries[i];
      var golferId := MatchGolferExact(golfers, entry.golfer, suggest(entry.golfer));
      if golferId.Err? {
        assert FirstUnknown(golfers, entries, i);
        return Err(golferId.error);
      }
      SelectStep(golfers, entries, suggest, i, selections);
      selections := selections + [GolferSelection(entry.bettor, golferId.value)];
    }
    return Ok((bettors, selections));
  }

  /** The first i entries resolved, each to its selection. */
  ghost predicate SelectedSoFar(golfers: seq<(string, int)>, entries: seq<GolferByBettorInput>, suggest: string -> seq<string>,
    i: nat, selections: seq<GolferSelection>)
  {
    && i <= |entries| && |selections| == i
    && (forall j :: 0 <= j < i ==> Resolve(golfers, entries[j], suggest).Ok?)
    && (forall j :: 0 <= j < i ==> selections[j] == GolferSelection(entries[j].bettor, Resolve(golfers, entries[j], suggest).value))
  }

  lemma SelectStep(golfers: seq<(string, int)>, entries: seq<GolferByBettorInput>, suggest: string -> seq<string>,
    i: nat, selections: seq<GolferSelection>)
    requires SelectedSoFar(golfers, entries, suggest, i, selections)
    requires i < |entries| && Resolve(golfers, entries[i], suggest).Ok?
    ensures SelectedSoFar(golfers, entries, suggest, i + 1,
      selections + [GolferSelection(entries[i].bettor, Resolve(golfers, entries[i], suggest).value)])
  {
    var t := selections + [GolferSelection(entries[i].bettor, Resolve(golfers, entries[i], suggest).value)];
    assert forall j :: 0 <= j < i ==> t[j] == selections[j];
  }

  /** The selection of each entry when every entry resolves; each names a listed golfer. */
  function Selections(golfers: seq<(string, int)>, entries: seq<GolferByBettorInput>, suggest: string -> seq<string>)
    : (s: seq<GolferSelection>)
    requires forall i :: 0 <= i < |entries| ==> Resolve(golfers, entries[i], suggest).Ok?
    ensures |s| == |entries|
    ensures forall i :: 0 <= i < |s| ==> s[i].bettor == entries[i].bettor && s[i].golferEspnId in NamesById(golfers)
  {
    AllMatchedListed(golfers, entries, suggest);
    seq(|entries|, i requires 0 <= i < |entries| => GolferSelection(entries[i].bettor, Resolve(golfers, entries[i], suggest).value))
  }

  lemma AllMatchedListed(golfers: seq<(string, int)>, entries: seq<GolferByBettorInput>, suggest: string -> seq<string>)
    requires forall i :: 0 <= i < |entries| ==> Resolve(golfers, entries[i], suggest).Ok?
    ensures forall i :: 0 <= i < |entries| ==> Resolve(golfers, entries[i], suggest).value in NamesById(golfers)
  {
    forall i | 0 <= i < |entries|
      ensures Resolve(golfers, entries[i], suggest).value in NamesById(golfers)
    {
      MatchedIdIsListed(golfers, entries[i].golfer, suggest(entries[i].golfer));
    }
  }

  /** The bettor half of the selection loop: a seen set and a list of first appearances. */
  method SelectBettors(entries: seq<GolferByBettorInput>) returns (bettors: seq<string>)
    ensures bettors == Dedup(Bettors(entries))
  {
    bettors := [];
    var seenBettors: set<string> := {};
    var names := Bettors(entries);
    for i := 0 to |entries|
      invariant seenBettors == set j | 0 <= j < i :: names[j]
      invariant bettors == Dedup(names[..i])
    {
      assert names[..i + 1][..i] == names[..i];
      assert names[i] in names[..i] <==> names[i] in seenBettors;
      if entries[i].bettor !in seenBettors {
        seenBettors := seenBettors + {entries[i].bettor};
        bettors := bettors + [entries[i].bettor];
      }
    }
    assert names[..|entries|] == names;
  }

  /** The event's name: that of the first listed event with this id, else the id itself. */
  function EventName(events: seq<(string, string)>, eventIdRaw: string): (name: string)
    ensures (forall i :: 0 <= i < |events| ==> events[i].0 != eventIdRaw) ==> name == eventIdRaw
  {
    if |events| == 0 then eventIdRaw
    else if events[0].0 == eventIdRaw then events[0].1
    else EventName(events[1..], eventIdRaw)
  }

  /**
   * `run_new_event_one_shot` once the event list, the event's golfers, the
   * existing file contents and the year are read: the new file contents, or
   * the first error met.
   */
  method RunNewEventOneShot(events: seq<(string, string)>, eventId: int, golfers: seq<(string, int)>,
    golfersByBettor: seq<GolferByBettorInput>, existing: seq<Json>, year: int, suggest: string -> seq<string>)
    returns (r: Result<seq<Json>, string>)
    ensures |events| == 0 ==> r == Err("no events found")
    ensures |events| > 0 && |golfers| == 0 ==> r == Err("no golfers found for event " + IntToString(eventId))
    ensures r.Ok? ==> |events| > 0 && |golfers| > 0 && |r.value| == |existing| + 1 && r.value[..|existing|] == existing
    ensures |events| > 0 && |golfers| > 0 ==>
      (r.Ok? <==> forall i :: 0 <= i < |golfersByBettor| ==> Resolve(golfers, golfersByBettor[i], suggest).Ok?)
    ensures |events| > 0 && |golfers| > 0 && r.Err? ==> exists i :: (FirstUnknown(golfers, golfersByBettor, i) &&
      r.error == UnknownGolferMessage(golfersByBettor[i].golfer, suggest(golfersByBettor[i].golfer)))
    ensures r.Ok? ==>
      var selections := Selections(golfers, golfersByBettor, suggest);
      r.value == existing + [BuildNewEventJson(eventId, year, EventName(events, IntToString(eventId)),
        Dedup(Bettors(golfersByBettor)), GolfersPayload(golfers, selections), BuildEventUserPlayer(selections))]
  {
    if |events| == 0 {
      return Err("no events found");
    }
    var eventIdRaw := IntToString(eventId);
    var eventName := EventName(events, eventIdRaw);
    if |golfers| == 0 {
      return Err("no golfers found for event " + IntToString(eventId));
    }
    var selected := SelectEntries(golfers, golfersByBettor, suggest);
    if selected.Err? {
      return Err(selected.error);
    }
    var (bettors, selections) := selected.value;
    assert selections == Selections(golfers, golfersByBettor, suggest);
    r := WriteEventPayload(existing, year, eventId, eventName, golfers, bettors, selections);
  }

  /** A matched id is one of the golfers' ids, so the payload always finds it. */
  lemma MatchedIdIsListed(golfers: seq<(string, int)>, golfer: string, suggestions: seq<string>)
    requires MatchGolferExact(golfers, golfer, suggestions).Ok?
    ensures MatchGolferExact(golfers, golfer, suggestions).value in NamesById(golfers)
  {
    var i :| FirstNamed(golfers, i, golfer) && golfers[i].1 == MatchGolferExact(golfers, golfer, suggestions).value;
    ListedIdsHaveNames(golfers, i);
  }

  lemma {:induction false} ListedIdsHaveNames(golfers: seq<(string, int)>, i: int)
    requires 0 <= i < |golfers|
    ensures golfers[i].1 in NamesById(golfers)
  {
    var n := |golfers| - 1;
    if i < n {
      assert golfers[..n][i] == golfers[i];
      ListedIdsHaveNames(golfers[..n], i);
    }
  }
}
