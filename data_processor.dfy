/**
 * Turning ESPN per-golfer responses into statistics and joining them with the
 * event's golfer assignments (src/controller/espn/processing/data_processor.rs).
 */
module DataProcessor {
  import opened Wrappers
  import opened Text
  import opened Json
  import opened ScoreModel
  import opened ScoreCalculator
  import opened Sorting

  /** The response's `rounds` array, or no rounds when it is missing or not an array. */
  function RoundsOf(result: Json): seq<Json> { GetArray(result, "rounds").GetOr([]) }

  /** A round's `linescores` array, or no holes. */
  function HolesOf(round: Json): seq<Json> { GetArray(round, "linescores").GetOr([]) }

  function DisplayValueOf(round: Json): string { GetStr(round, "displayValue").GetOr("") }

  function TeeTimeOf(round: Json): string { GetStr(round, "teeTime").GetOr("") }

  /** What one round contributes: its line scores, its round score and its tee time if it parses. */
  datatype RoundInput = RoundInput(lines: seq<LineScore>, score: IntStat, tee: Option<StringStat>)

  /**
   * The contribution of round i.  `teeTime` stands for `process_tee_time`,
   * which parses a clock time.
   */
  function RoundInputOf(round: Json, i: nat, teeTime: string -> Option<StringStat>): (r: RoundInput)
    ensures |r.lines| == |HolesOf(round)|
  {
    RoundInput(LineScores(HolesOf(round), i), RoundScore(DisplayValueOf(round)), teeTime(TeeTimeOf(round)))
  }

  function Inputs(rounds: seq<Json>, teeTime: string -> Option<StringStat>): (r: seq<RoundInput>)
    ensures |r| == |rounds|
  {
    seq(|rounds|, i requires 0 <= i < |rounds| => RoundInputOf(rounds[i], i, teeTime))
  }

  /** The number of line scores over all the given rounds. */
  function LineCount(inputs: seq<RoundInput>): nat {
    if |inputs| == 0 then 0 else LineCount(inputs[..|inputs| - 1]) + |inputs[|inputs| - 1].lines|
  }

  /** Round i applied to the statistic so far. */
  function Step(st: Statistic, i: nat, input: RoundInput): Statistic {
    var lines := st.lineScores + input.lines;
    Statistic(st.eupId,
      st.rounds + [IntStat(TryI32(i).GetOr(0))],
      st.roundScores + [input.score],
      st.teeTimes + (if input.tee.Some? then [input.tee.value] else []),
      st.holesCompletedByRound + [IntStat(TryI32(|lines|).GetOr(0))],
      lines,
      st.totalScore)
  }

  /** The statistic after the given rounds were processed, before the total is set. */
  function Accumulate(eupId: int, inputs: seq<RoundInput>): Statistic {
    if |inputs| == 0 then Statistic(eupId, [], [], [], [], [], 0)
    else Step(Accumulate(eupId, inputs[..|inputs| - 1]), |inputs| - 1, inputs[|inputs| - 1])
  }

  /** The statistic of one response. */
  function StatisticOf(eupId: int, result: Json, teeTime: string -> Option<StringStat>): Statistic {
    var st := Accumulate(eupId, Inputs(RoundsOf(result), teeTime));
    st.(totalScore := TotalScore(st.roundScores))
  }

  /** `process_json_to_statistics`: one statistic per response, in order. */
  method ProcessJsonToStatistics(data: seq<Json>, eupIds: seq<int>, teeTime: string -> Option<StringStat>)
    returns (stats: seq<Statistic>)
    requires |eupIds| >= |data|
    ensures |stats| == |data|
    ensures forall r :: 0 <= r < |data| ==> stats[r] == StatisticOf(eupIds[r], data[r], teeTime)
  {
    stats := [];
    var r := 0;
    while r < |data|
      invariant 0 <= r <= |data|
      invariant PairedSoFar(data, eupIds, (d: Json, id: int) => StatisticOf(id, d, teeTime), stats, r)
    {
      var st := ProcessResponse(data[r], eupIds[r], teeTime);
      PairedStep(data, eupIds, (d: Json, id: int) => StatisticOf(id, d, teeTime), stats, r);
      stats := stats + [st];
      r := r + 1;
    }
  }

  /** out holds f of the first r pairs, in order. */
  ghost predicate PairedSoFar<A, B, T>(xs: seq<A>, ys: seq<B>, f: (A, B) -> T, out: seq<T>, r: nat)
    requires r <= |xs| <= |ys|
  {
    |out| == r && forall k :: 0 <= k < r ==> out[k] == f(xs[k], ys[k])
  }

  lemma PairedStep<A, B, T>(xs: seq<A>, ys: seq<B>, f: (A, B) -> T, out: seq<T>, r: nat)
    requires r < |xs| <= |ys| && PairedSoFar(xs, ys, f, out, r)
    ensures PairedSoFar(xs, ys, f, out + [f(xs[r], ys[r])], r + 1)
  {
    var t := out + [f(xs[r], ys[r])];
    assert forall k :: 0 <= k < r ==> t[k] == out[k];
  }

  /** The body of the outer loop: the statistic of one response. */
  method ProcessResponse(result: Json, eupId: int, teeTime: string -> Option<StringStat>) returns (st: Statistic)
    ensures st == StatisticOf(eupId, result, teeTime)
  {
    st := AccumulateRounds(eupId, RoundsOf(result), teeTime);
    st := st.(totalScore := TotalScore(st.roundScores));
  }

  /** The inner loop over the rounds, before the total is set. */
  method AccumulateRounds(eupId: int, rounds: seq<Json>, teeTime: string -> Option<StringStat>) returns (st: Statistic)
    ensures st == Accumulate(eupId, Inputs(rounds, teeTime))
  {
    ghost var inputs := Inputs(rounds, teeTime);
    st := Statistic(eupId, [], [], [], [], [], 0);
    for i := 0 to |rounds|
      invariant st == Accumulate(eupId, inputs[..i])
    {
      st := ProcessRound(st, rounds[i], i, teeTime);
      InputAt(rounds, teeTime, i);
      AccumulateStep(eupId, inputs, i);
    }
    assert inputs[..|rounds|] == inputs;
  }

  lemma InputAt(rounds: seq<Json>, teeTime: string -> Option<StringStat>, i: nat)
    requires i < |rounds|
    ensures Inputs(rounds, teeTime)[i] == RoundInputOf(rounds[i], i, teeTime)
  {
  }

  lemma AccumulateStep(eupId: int, inputs: seq<RoundInput>, i: nat)
    requires i < |inputs|
    ensures Accumulate(eupId, inputs[..i + 1]) == Step(Accumulate(eupId, inputs[..i]), i, inputs[i])
  {
    assert inputs[..i + 1][..i] == inputs[..i];
  }

  /** The body of the inner loop: round i pushed onto each list of the statistic. */
  method ProcessRound(st0: Statistic, round: Json, i: nat, teeTime: string -> Option<StringStat>) returns (st: Statistic)
    ensures st == Step(st0, i, RoundInputOf(round, i, teeTime))
  {
    st := st0;
    var lineScores := ProcessLineScores(HolesOf(round), i);
    st := st.(lineScores := st.lineScores + lineScores);
    var displayValue := DisplayValueOf(round);
    st := st.(rounds := st.rounds + [IntStat(TryI32(i).GetOr(0))]);
    st := st.(roundScores := st.roundScores + [RoundScore(displayValue)]);
    var tee := teeTime(TeeTimeOf(round));
    if tee.Some? {
      st := st.(teeTimes := st.teeTimes + [tee.value]);
    }
    var holesCompleted := |st.lineScores|;
    st := st.(holesCompletedByRound := st.holesCompletedByRound + [IntStat(TryI32(holesCompleted).GetOr(0))]);
  }

  /**
   * One entry per round in rounds, round scores and holes completed; at most
   * one tee time per round; every hole element gives one line score.
   */
  lemma {:induction false} AccumulateLengths(eupId: int, inputs: seq<RoundInput>)
    ensures var st := Accumulate(eupId, inputs);
      st.eupId == eupId &&
      |st.rounds| == |st.roundScores| == |st.holesCompletedByRound| == |inputs| &&
      |st.teeTimes| <= |inputs| &&
      |st.lineScores| == LineCount(inputs)
  {
    if |inputs| > 0 {
      AccumulateLengths(eupId, inputs[..|inputs| - 1]);
    }
  }

  /** Every tee time that parses is kept, so when all parse there is one per round. */
  lemma {:induction false} AllTeeTimesKept(eupId: int, inputs: seq<RoundInput>)
    requires forall k :: 0 <= k < |inputs| ==> inputs[k].tee.Some?
    ensures |Accumulate(eupId, inputs).teeTimes| == |inputs|
  {
    if |inputs| > 0 {
      var n := |inputs| - 1;
      assert forall k :: 0 <= k < n ==> inputs[..n][k] == inputs[k];
      AllTeeTimesKept(eupId, inputs[..n]);
    }
  }

  /**
   * Entry i of the per-round lists: the round number i, that round's score,
   * and the number of line scores in rounds 0..i.
   */
  lemma {:induction false} AccumulateAt(eupId: int, inputs: seq<RoundInput>, i: nat)
    requires i < |inputs|
    ensures var st := Accumulate(eupId, inputs);
      |st.rounds| == |st.roundScores| == |st.holesCompletedByRound| == |inputs| &&
      (i <= I32_MAX ==> st.rounds[i].val == i) &&
      st.roundScores[i] == inputs[i].score &&
      (LineCount(inputs[..i + 1]) <= I32_MAX ==> st.holesCompletedByRound[i].val == LineCount(inputs[..i + 1]))
  {
    var n := |inputs| - 1;
    AccumulateLengths(eupId, inputs);
    AccumulateLengths(eupId, inputs[..n]);
    if i < n {
      AccumulateAt(eupId, inputs[..n], i);
      assert inputs[..n][i] == inputs[i];
      assert inputs[..n][..i + 1] == inputs[..i + 1];
    } else {
      assert inputs[..i + 1] == inputs;
    }
  }

  lemma {:induction false} LineCountMonotone(inputs: seq<RoundInput>, j: nat)
    requires j <= |inputs|
    ensures LineCount(inputs[..j]) <= LineCount(inputs)
    decreases |inputs|
  {
    if j < |inputs| {
      var n := |inputs| - 1;
      assert inputs[..n][..j] == inputs[..j];
      LineCountMonotone(inputs[..n], j);
    } else {
      assert inputs[..j] == inputs;
    }
  }

  /** Holes completed is a running count, so it never decreases while it fits an i32. */
  lemma HolesCompletedNonDecreasing(eupId: int, inputs: seq<RoundInput>, i: nat, j: nat)
    requires i <= j < |inputs| && LineCount(inputs) <= I32_MAX
    ensures var st := Accumulate(eupId, inputs);
      |st.holesCompletedByRound| == |inputs| &&
      st.holesCompletedByRound[i].val <= st.holesCompletedByRound[j].val
  {
    AccumulateAt(eupId, inputs, i);
    AccumulateAt(eupId, inputs, j);
    LineCountMonotone(inputs[..j + 1], i + 1);
    assert inputs[..j + 1][..i + 1] == inputs[..i + 1];
    LineCountMonotone(inputs, j + 1);
  }

  /**
   * The statistic of a response is for its golfer, has one entry per round of
   * `rounds` in each per-round list, with round i scored from that round's
   * `displayValue`, and its total is the sum of its round scores.
   */
  lemma StatisticOfCorrect(eupId: int, result: Json, teeTime: string -> Option<StringStat>, i: nat)
    requires i < |RoundsOf(result)|
    ensures var st := StatisticOf(eupId, result, teeTime);
      st.eupId == eupId && st.totalScore == SumVals(st.roundScores) &&
      |st.rounds| == |st.roundScores| == |st.holesCompletedByRound| == |RoundsOf(result)| &&
      st.roundScores[i] == RoundScore(DisplayValueOf(RoundsOf(result)[i])) &&
      (i <= I32_MAX ==> st.rounds[i].val == i)
  {
    var inputs := Inputs(RoundsOf(result), teeTime);
    AccumulateLengths(eupId, inputs);
    AccumulateAt(eupId, inputs, i);
  }

  // ----- merge_statistics_with_scores -----

  predicate HasEupId(scores: seq<Scores>, eupId: int) {
    exists k :: 0 <= k < |scores| && scores[k].eupId == eupId
  }

  /** `scores.iter().find(|g| g.eup_id == eup_id)`. */
  function FindByEupId(scores: seq<Scores>, eupId: int): Option<Scores> {
    if |scores| == 0 then None
    else if scores[0].eupId == eupId then Some(scores[0])
    else FindByEupId(scores[1..], eupId)
  }

  /** The search succeeds exactly when some golfer has the id, and returns the first one. */
  lemma {:induction false} FindByEupIdFinds(scores: seq<Scores>, eupId: int)
    ensures FindByEupId(scores, eupId).Some? <==> HasEupId(scores, eupId)
    ensures FindByEupId(scores, eupId).Some? ==>
      exists k :: 0 <= k < |scores| && scores[k] == FindByEupId(scores, eupId).value &&
        scores[k].eupId == eupId && forall j :: 0 <= j < k ==> scores[j].eupId != eupId
  {
    if |scores| > 0 && scores[0].eupId != eupId {
      var tail := scores[1..];
      FindByEupIdFinds(tail, eupId);
      if HasEupId(scores, eupId) {
        var k :| 0 <= k < |scores| && scores[k].eupId == eupId;
        assert tail[k - 1] == scores[k];
      }
      if HasEupId(tail, eupId) {
        var k :| 0 <= k < |tail| && tail[k] == FindByEupId(scores, eupId).value &&
          tail[k].eupId == eupId && forall j :: 0 <= j < k ==> tail[j].eupId != eupId;
        assert scores[k + 1] == tail[k];
        forall j | 0 <= j < k + 1 ensures scores[j].eupId != eupId {
          if j > 0 {
            assert scores[j] == tail[j - 1];
          }
        }
      }
    }
  }

  function NotFoundMessage(eupId: int): string {
    "Failed to find golfer with eup_id " + IntToString(eupId) + " in scores data"
  }

  /** The merged record: ids and statistics from the statistic, the rest from the golfer. */
  function MergeOne(statistic: Statistic, golfer: Scores): Scores {
    Scores(statistic.eupId, golfer.espnId, golfer.golferName, golfer.bettorName, statistic,
      golfer.group, golfer.scoreViewStepFactor)
  }

  /** The map/collect step: the first statistic without a golfer stops it with an error. */
  function Joined(statistics: seq<Statistic>, scores: seq<Scores>): Result<seq<Scores>, string> {
    if |statistics| == 0 then Ok([])
    else
      match FindByEupId(scores, statistics[0].eupId)
      case None => Err(NotFoundMessage(statistics[0].eupId))
      case Some(golfer) =>
        match Joined(statistics[1..], scores)
        case Err(e) => Err(e)
        case Ok(rest) => Ok([MergeOne(statistics[0], golfer)] + rest)
  }

  /** The sort order: group, then eup_id, both ascending. */
  predicate GroupThenEup(a: Scores, b: Scores) {
    a.group < b.group || (a.group == b.group && a.eupId <= b.eupId)
  }

  lemma GroupThenEupIsPreorder()
    ensures TotalPreorder(GroupThenEup)
  {
  }

  /** `merge_statistics_with_scores`. */
  function MergeStatisticsWithScores(statistics: seq<Statistic>, scores: seq<Scores>): Result<seq<Scores>, string> {
    match Joined(statistics, scores)
    case Err(e) => Err(e)
    case Ok(merged) => Ok(SortBy(merged, GroupThenEup))
  }

  /**
   * The join fails exactly when some statistic's eup_id has no golfer, naming
   * the first such id; otherwise entry i merges statistic i with the first
   * golfer carrying its id.
   */
  lemma {:induction false} JoinedCorrect(statistics: seq<Statistic>, scores: seq<Scores>)
    ensures Joined(statistics, scores).Err? <==>
      exists i :: 0 <= i < |statistics| && !HasEupId(scores, statistics[i].eupId)
    ensures Joined(statistics, scores).Err? ==>
      exists i :: 0 <= i < |statistics| && !HasEupId(scores, statistics[i].eupId) &&
        Joined(statistics, scores).error == NotFoundMessage(statistics[i].eupId) &&
        forall j :: 0 <= j < i ==> HasEupId(scores, statistics[j].eupId)
    ensures Joined(statistics, scores).Ok? ==>
      var merged := Joined(statistics, scores).value;
      |merged| == |statistics| &&
      forall i :: 0 <= i < |statistics| ==>
        FindByEupId(scores, statistics[i].eupId).Some? &&
        merged[i] == MergeOne(statistics[i], FindByEupId(scores, statistics[i].eupId).value)
  {
    JoinedErr(statistics, scores);
    JoinedOk(statistics, scores);
    if Joined(statistics, scores).Ok? {
      forall i | 0 <= i < |statistics| ensures HasEupId(scores, statistics[i].eupId) {
        FindByEupIdFinds(scores, statistics[i].eupId);
      }
    }
  }

  /** Statistic i is the first whose eup_id no golfer carries. */
  predicate FirstMissing(statistics: seq<Statistic>, scores: seq<Scores>, i: int) {
    0 <= i < |statistics| && !HasEupId(scores, statistics[i].eupId) &&
    forall j :: 0 <= j < i ==> HasEupId(scores, statistics[j].eupId)
  }

  lemma {:induction false} JoinedErr(statistics: seq<Statistic>, scores: seq<Scores>)
    ensures Joined(statistics, scores).Err? ==>
      exists i :: FirstMissing(statistics, scores, i) && Joined(statistics, scores).error == NotFoundMessage(statistics[i].eupId)
  {
    if |statistics| > 0 {
      var rest := statistics[1..];
      FindByEupIdFinds(scores, statistics[0].eupId);
      JoinedErr(rest, scores);
      if !HasEupId(scores, statistics[0].eupId) {
        assert FirstMissing(statistics, scores, 0);
      } else if Joined(rest, scores).Err? {
        var i :| FirstMissing(rest, scores, i) && Joined(rest, scores).error == NotFoundMessage(rest[i].eupId);
        forall j | 0 <= j < i + 1 ensures HasEupId(scores, statistics[j].eupId) {
          if j > 0 { assert statistics[j] == rest[j - 1]; }
        }
        assert FirstMissing(statistics, scores, i + 1);
      }
    }
  }

  lemma {:induction false} JoinedOk(statistics: seq<Statistic>, scores: seq<Scores>)
    ensures Joined(statistics, scores).Ok? ==>
      var merged := Joined(statistics, scores).value;
      |merged| == |statistics| &&
      forall i :: 0 <= i < |statistics| ==>
        FindByEupId(scores, statistics[i].eupId).Some? &&
        merged[i] == MergeOne(statistics[i], FindByEupId(scores, statistics[i].eupId).value)
  {
    if |statistics| > 0 {
      var rest := statistics[1..];
      JoinedOk(rest, scores);
      assert forall i :: 0 <= i < |rest| ==> rest[i] == statistics[i + 1];
    }
  }

  /**
   * The merge fails exactly when some statistic has no golfer; on success it
   * returns one record per statistic, ordered by (group, eup_id), as a
   * permutation of the joined records that keeps their order among ties.
   */
  lemma MergeStatisticsWithScoresCorrect(statistics: seq<Statistic>, scores: seq<Scores>)
    ensures MergeStatisticsWithScores(statistics, scores).Err? <==>
      exists i :: 0 <= i < |statistics| && !HasEupId(scores, statistics[i].eupId)
    ensures MergeStatisticsWithScores(statistics, scores).Ok? ==>
      var r := MergeStatisticsWithScores(statistics, scores).value;
      var joined := Joined(statistics, scores).value;
      |r| == |statistics| &&
      SortedBy(r, GroupThenEup) &&
      multiset(r) == multiset(joined) &&
      forall x :: Tied(r, x, GroupThenEup) == Tied(joined, x, GroupThenEup)
  {
    JoinedCorrect(statistics, scores);
    if Joined(statistics, scores).Ok? {
      var joined := Joined(statistics, scores).value;
      GroupThenEupIsPreorder();
      SortBySorted(joined, GroupThenEup);
      SortByPermutes(joined, GroupThenEup);
      forall x ensures Tied(SortBy(joined, GroupThenEup), x, GroupThenEup) == Tied(joined, x, GroupThenEup) {
        SortByStable(joined, x, GroupThenEup);
      }
    }
  }
}
