/**
 * Turning an admin seed request into stored rows
 * (serverless/src/storage_admin_seed_helpers.rs): the request check, one
 * golfer assignment per (bettor, golfer) entry with sequential eup ids and
 * per-bettor group numbers, and the per-player step factors.
 */
module SeedHelpers {
  import opened Wrappers
  import opened Text
  import opened Json

  datatype AdminEupGolfer = AdminEupGolfer(espnId: int, name: string)
  datatype AdminEupEventUserPlayer = AdminEupEventUserPlayer(bettor: string, golferEspnId: int,
    scoreViewStepFactor: Option<Json>)
  datatype AdminEupDataFill = AdminEupDataFill(golfers: seq<AdminEupGolfer>, eventUserPlayer: seq<AdminEupEventUserPlayer>)
  datatype AdminEupEvent = AdminEupEvent(event: int, name: string, endDate: Option<string>,
    dataToFillIfEventAndYearMissing: seq<AdminEupDataFill>)
  /** The parts of a seed request these helpers read. */
  datatype AdminSeedRequest = AdminSeedRequest(eventId: int, refreshFromEspn: int, event: AdminEupEvent)

  datatype GolferAssignment = GolferAssignment(eupId: int, espnId: int, golferName: string, bettorName: string,
    group: int, scoreViewStepFactor: Option<real>)
  datatype PlayerFactorEntry = PlayerFactorEntry(golferEspnId: int, bettorName: string, stepFactor: real)

  /** Rust's `as i32` on an i64: keeps the low 32 bits, read as two's complement. */
  function AsI32(x: int): (r: int)
    ensures -0x8000_0000 <= r < 0x8000_0000
    ensures -0x8000_0000 <= x < 0x8000_0000 ==> r == x
    ensures (r - x) % 0x1_0000_0000 == 0
  {
    (x + 0x8000_0000) % 0x1_0000_0000 - 0x8000_0000
  }

  /** `validate_seed_request`: the event ids agree and there is a first data-to-fill block. */
  function ValidateSeedRequest(request: AdminSeedRequest): (r: Result<AdminEupDataFill, string>)
    ensures r.Err? <==> request.eventId != AsI32(request.event.event) || |request.event.dataToFillIfEventAndYearMissing| == 0
    ensures r.Ok? ==> r.value == request.event.dataToFillIfEventAndYearMissing[0]
    ensures r.Err? && request.eventId != AsI32(request.event.event) ==>
      r.error == MismatchMessage(request.eventId, request.event.event)
  {
    if request.eventId != AsI32(request.event.event) then Err(MismatchMessage(request.eventId, request.event.event))
    else if |request.event.dataToFillIfEventAndYearMissing| == 0 then Err("missing data_to_fill_if_event_and_year_missing")
    else Ok(request.event.dataToFillIfEventAndYearMissing[0])
  }

  function MismatchMessage(requestId: int, eventId: int): string {
    "event_id mismatch: request " + IntToString(requestId) + ", event " + IntToString(eventId)
  }

  /** The numeric value of an optional JSON step factor (`as_f64`). */
  function StepFactor(v: Option<Json>): Option<real> {
    if v.Some? then AsF64(v.value) else None
  }

  // ----- golfer assignments -----

  /** The golfer names by espn id, as inserting into a `HashMap` in order leaves them: the last name wins. */
  function NamesById(golfers: seq<AdminEupGolfer>): map<int, string> {
    if |golfers| == 0 then map[]
    else
      var n := |golfers| - 1;
      NamesById(golfers[..n])[golfers[n].espnId := golfers[n].name]
  }

  /** How many of the entries belong to bettor b. */
  function CountOf(entries: seq<AdminEupEventUserPlayer>, b: string): nat {
    if |entries| == 0 then 0
    else CountOf(entries[..|entries| - 1], b) + (if entries[|entries| - 1].bettor == b then 1 else 0)
  }

  /** The assignment of entry i: eup id i + 1 and group = that bettor's entries so far, this one included. */
  function AssignmentAt(entries: seq<AdminEupEventUserPlayer>, names: map<int, string>, i: nat): GolferAssignment
    requires i < |entries| && entries[i].golferEspnId in names
  {
    var e := entries[i];
    GolferAssignment(i + 1, e.golferEspnId, names[e.golferEspnId], e.bettor, CountOf(entries[..i + 1], e.bettor),
      StepFactor(e.scoreViewStepFactor))
  }

  function MissingGolferMessage(espnId: int, eventId: int): string {
    "missing golfer_espn_id " + IntToString(espnId) + " for event " + IntToString(eventId)
  }

  /**
   * `build_golfers_out`: one assignment per entry, in order, or an error
   * naming the first entry whose golfer is not among the golfers.
   */
  method BuildGolfersOut(eventId: int, dataToFill: AdminEupDataFill) returns (r: Result<seq<GolferAssignment>, string>)
    ensures var names := NamesById(dataToFill.golfers); var entries := dataToFill.eventUserPlayer;
      && (r.Err? <==> exists i :: 0 <= i < |entries| && entries[i].golferEspnId !in names)
      && (r.Ok? ==> (|r.value| == |entries| &&
            forall i :: 0 <= i < |entries| ==> entries[i].golferEspnId in names && r.value[i] == AssignmentAt(entries, names, i)))
  {
    var golfersById: map<int, string> := map[];
    var golfers := dataToFill.golfers;
    for i := 0 to |golfers|
      invariant golfersById == NamesById(golfers[..i])
    {
      assert golfers[..i + 1][..i] == golfers[..i];
      golfersById := golfersById[golfers[i].espnId := golfers[i].name];
    }
    assert golfers[..|golfers|] == golfers;

    var entries := dataToFill.eventUserPlayer;
    var bettorCounts: map<string, nat> := map[];
    var golfersOut: seq<GolferAssignment> := [];
    var eupId := 1;
    for i := 0 to |entries|
      invariant eupId == i + 1
      invariant AssignedSoFar(entries, golfersById, i, bettorCounts, golfersOut)
    {
      var e := entries[i];
      var count := (if e.bettor in bettorCounts then bettorCounts[e.bettor] else 0) + 1;
      if e.golferEspnId in golfersById {
        AssignStep(entries, golfersById, i, bettorCounts, golfersOut);
      }
      bettorCounts := bettorCounts[e.bettor := count];
      if e.golferEspnId !in golfersById {
        return Err(MissingGolferMessage(e.golferEspnId, eventId));
      }
      var golferName := golfersById[e.golferEspnId];
      golfersOut := golfersOut + [GolferAssignment(eupId, e.golferEspnId, golferName, e.bettor, count,
        StepFactor(e.scoreViewStepFactor))];
      eupId := eupId + 1;
    }
    return Ok(golfersOut);
  }

  /** The counts and assignments after the first i entries. */
  ghost predicate AssignedSoFar(entries: seq<AdminEupEventUserPlayer>, names: map<int, string>, i: nat,
    bettorCounts: map<string, nat>, golfersOut: seq<GolferAssignment>)
  {
    && i <= |entries| && |golfersOut| == i
    && (forall b :: (b in bettorCounts ==> bettorCounts[b] == CountOf(entries[..i], b)) &&
                   (b !in bettorCounts ==> CountOf(entries[..i], b) == 0))
    && (forall j :: 0 <= j < i ==> entries[j].golferEspnId in names && golfersOut[j] == AssignmentAt(entries, names, j))
  }

  /** One entry whose golfer is known: its count goes up by one and its assignment is appended. */
  lemma AssignStep(entries: seq<AdminEupEventUserPlayer>, names: map<int, string>, i: nat,
    bettorCounts: map<string, nat>, golfersOut: seq<GolferAssignment>)
    requires AssignedSoFar(entries, names, i, bettorCounts, golfersOut)
    requires i < |entries| && entries[i].golferEspnId in names
    ensures var e := entries[i];
      var count := (if e.bettor in bettorCounts then bettorCounts[e.bettor] else 0) + 1;
      AssignedSoFar(entries, names, i + 1, bettorCounts[e.bettor := count],
        golfersOut + [GolferAssignment(i + 1, e.golferEspnId, names[e.golferEspnId], e.bettor, count,
          StepFactor(e.scoreViewStepFactor))])
  {
    var e := entries[i];
    assert entries[..i + 1][..i] == entries[..i];
    var count := (if e.bettor in bettorCounts then bettorCounts[e.bettor] else 0) + 1;
    assert count == CountOf(entries[..i + 1], e.bettor);
    var out := golfersOut + [GolferAssignment(i + 1, e.golferEspnId, names[e.golferEspnId], e.bettor, count,
          StepFactor(e.scoreViewStepFactor))];
    assert out[i] == AssignmentAt(entries, names, i);
    assert forall j :: 0 <= j < i ==> out[j] == golfersOut[j];
  }

  /** Within one bettor the groups run 1, 2, 3, … in entry order. */
  lemma {:induction false} GroupsCountUp(entries: seq<AdminEupEventUserPlayer>, i: nat, j: nat)
    requires i < j < |entries| && entries[i].bettor == entries[j].bettor
    ensures 1 <= CountOf(entries[..i + 1], entries[i].bettor) < CountOf(entries[..j + 1], entries[j].bettor)
    decreases j
  {
    var b := entries[i].bettor;
    assert entries[..j + 1][..j] == entries[..j];
    assert entries[..i + 1][..i] == entries[..i];
    CountMonotone(entries, i + 1, j, b);
  }

  lemma {:induction false} CountMonotone(entries: seq<AdminEupEventUserPlayer>, m: nat, n: nat, b: string)
    requires m <= n <= |entries|
    ensures CountOf(entries[..m], b) <= CountOf(entries[..n], b)
    decreases n - m
  {
    if m < n {
      CountMonotone(entries, m, n - 1, b);
      assert entries[..n][..n - 1] == entries[..n - 1];
    }
  }

  /** A bettor's group never exceeds the number of entries so far. */
  lemma {:induction false} CountBound(entries: seq<AdminEupEventUserPlayer>, b: string)
    ensures CountOf(entries, b) <= |entries|
  {
    if |entries| > 0 {
      CountBound(entries[..|entries| - 1], b);
    }
  }

  // ----- player factors -----

  /** `build_player_factors`: the entries with a numeric step factor, in input order. */
  function BuildPlayerFactors(entries: seq<AdminEupEventUserPlayer>): (r: seq<PlayerFactorEntry>)
    ensures |r| <= |entries|
  {
    if |entries| == 0 then []
    else
      var n := |entries| - 1;
      var e := entries[n];
      BuildPlayerFactors(entries[..n]) +
        (match StepFactor(e.scoreViewStepFactor)
         case Some(f) => [PlayerFactorEntry(e.golferEspnId, e.bettor, f)]
         case None => [])
  }

  /** The factors of two runs of entries are the factors of each, in order. */
  lemma {:induction false} PlayerFactorsAppend(a: seq<AdminEupEventUserPlayer>, b: seq<AdminEupEventUserPlayer>)
    ensures BuildPlayerFactors(a + b) == BuildPlayerFactors(a) + BuildPlayerFactors(b)
    decreases |b|
  {
    if |b| > 0 {
      var n := |b| - 1;
      assert (a + b)[..|a| + n] == a + b[..n];
      PlayerFactorsAppend(a, b[..n]);
    } else {
      assert a + b == a;
    }
  }

  /** An entry gets a factor exactly when its step factor is a number, and keeps its ids and value. */
  lemma PlayerFactorOfOne(e: AdminEupEventUserPlayer)
    ensures BuildPlayerFactors([e]) ==
      if e.scoreViewStepFactor.Some? && IsNumber(e.scoreViewStepFactor.value)
      then [PlayerFactorEntry(e.golferEspnId, e.bettor, AsF64(e.scoreViewStepFactor.value).value)]
      else []
  {
    assert [e][..0] == [];
  }
}
