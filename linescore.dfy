/**
 * The two computations behind a golfer's line-score table
 * (rusty-golf-core/src/view/score/linescore.rs): the round numbers of its
 * buttons, one per tee time, and the score relative to par of each round.
 */
module Linescore {
  import opened ScoreModel
  import opened Collections
  import opened ScoreViewUtils

  /** `build_round_list`: the rounds 1 to the number of tee times. */
  function BuildRoundList(golfer: GolferData): (r: seq<int>)
    ensures |r| == |golfer.teeTimes|
    ensures forall i :: 0 <= i < |r| ==> r[i] == i + 1
  {
    seq(|golfer.teeTimes|, i => i + 1)
  }

  /** The list counts up from 1 without gaps, so its last entry (the latest round) is the number of tee times. */
  lemma RoundListCountsUp(golfer: GolferData)
    ensures forall i, j :: 0 <= i < j < |BuildRoundList(golfer)| ==> BuildRoundList(golfer)[i] < BuildRoundList(golfer)[j]
    ensures |golfer.teeTimes| > 0 ==> BuildRoundList(golfer)[|golfer.teeTimes| - 1] == |golfer.teeTimes|
    ensures forall n :: n in BuildRoundList(golfer) <==> 1 <= n <= |golfer.teeTimes|
  {
    var r := BuildRoundList(golfer);
    forall n | 1 <= n <= |golfer.teeTimes| ensures n in r {
      assert r[n - 1] == n;
    }
  }

  /** The rounds some hole score belongs to. */
  function RoundsOf(scores: seq<LineScore>): set<int> {
    set i | 0 <= i < |scores| :: scores[i].round
  }

  /** The sum of score minus par over the hole scores of round r. */
  function RoundTotal(scores: seq<LineScore>, r: int): int {
    if |scores| == 0 then 0
    else
      var n := |scores| - 1;
      RoundTotal(scores[..n], r) + (if scores[n].round == r then scores[n].score - scores[n].par else 0)
  }

  /** The sum of score minus par over every hole score. */
  function RelativeTotal(scores: seq<LineScore>): int {
    if |scores| == 0 then 0 else RelativeTotal(scores[..|scores| - 1]) + scores[|scores| - 1].score - scores[|scores| - 1].par
  }

  /** `build_totals`: one entry per round present, holding that round's score relative to par. */
  method BuildTotals(allScores: seq<LineScore>) returns (totals: map<int, int>)
    ensures totals.Keys == RoundsOf(allScores)
    ensures forall r :: r in totals ==> totals[r] == RoundTotal(allScores, r)
  {
    totals := map[];
    for i := 0 to |allScores|
      invariant totals.Keys == RoundsOf(allScores[..i])
      invariant forall r :: r in totals ==> totals[r] == RoundTotal(allScores[..i], r)
    {
      var ls := allScores[i];
      assert allScores[..i + 1][..i] == allScores[..i];
      assert RoundsOf(allScores[..i + 1]) == RoundsOf(allScores[..i]) + {ls.round};
      if ls.round in totals {
        totals := totals[ls.round := totals[ls.round] + (ls.score - ls.par)];
      } else {
        RoundTotalAbsent(allScores[..i], ls.round);
        totals := totals[ls.round := ls.score - ls.par];
      }
    }
    assert allScores[..|allScores|] == allScores;
  }

  /** A round without hole scores totals zero. */
  lemma {:induction false} RoundTotalAbsent(scores: seq<LineScore>, r: int)
    requires r !in RoundsOf(scores)
    ensures RoundTotal(scores, r) == 0
  {
    if |scores| > 0 {
      var n := |scores| - 1;
      assert RoundsOf(scores[..n]) <= RoundsOf(scores);
      RoundTotalAbsent(scores[..n], r);
    }
  }

  /** The round totals add up to the golfer's score relative to par: no hole is lost or counted twice. */
  lemma {:induction false} RoundTotalsAddUp(scores: seq<LineScore>)
    ensures SumOver(RoundsOf(scores), TotalFor(scores)) == RelativeTotal(scores)
  {
    if |scores| > 0 {
      var n := |scores| - 1;
      var init, ls := scores[..n], scores[n];
      RoundTotalsAddUp(init);
      var rounds := RoundsOf(init);
      var r := ls.round;
      assert RoundsOf(scores) == rounds + {r};
      SumOverRemove(RoundsOf(scores), TotalFor(scores), r);
      assert RoundsOf(scores) - {r} == rounds - {r};
      OtherRoundsUnchanged(scores, rounds - {r});
      if r in rounds {
        SumOverRemove(rounds, TotalFor(init), r);
      } else {
        RoundTotalAbsent(init, r);
        assert rounds - {r} == rounds;
      }
    }
  }

  /** The round-total function of a run of hole scores. */
  function TotalFor(scores: seq<LineScore>): int -> int {
    r => RoundTotal(scores, r)
  }

  /** Appending a hole score leaves every other round's total, and so their sum, unchanged. */
  lemma OtherRoundsUnchanged(scores: seq<LineScore>, keys: set<int>)
    requires |scores| > 0 && scores[|scores| - 1].round !in keys
    ensures SumOver(keys, TotalFor(scores)) == SumOver(keys, TotalFor(scores[..|scores| - 1]))
  {
    SumOverCongruent(keys, TotalFor(scores), TotalFor(scores[..|scores| - 1]));
  }
}
