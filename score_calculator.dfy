/**
 * Turning ESPN hole and round values into integers
 * (src/controller/espn/processing/score_calculator.rs).
 */
module ScoreCalculator {
  import opened Wrappers
  import opened Text
  import opened Json
  import opened ScoreModel

  /** `i32::try_from(x)`. */
  function TryI32(x: int): (r: Option<int>)
    ensures r.Some? <==> I32_MIN <= x <= I32_MAX
    ensures r.Some? ==> r.value == x
  {
    if I32_MIN <= x <= I32_MAX then Some(x) else None
  }

  /** The hole's par: `par` as an i64, or 0 when missing or not an integer. */
  function HolePar(ln: Json): int {
    GetI64(ln, "par").GetOr(0)
  }

  /** The hole's strokes: `displayValue` without leading '+' signs, parsed as i64, or 0. */
  function HoleScore(ln: Json): int {
    ParseI64(TrimStartMatches(GetStr(ln, "displayValue").GetOr(""), '+')).GetOr(0)
  }

  /** The line score built for hole element ln at position idx of round roundIndex. */
  function LineScoreOf(ln: Json, idx: nat, roundIndex: nat): LineScore {
    var par := HolePar(ln);
    var score := HoleScore(ln);
    var diff := TryI32(par - score).GetOr(0);
    LineScore(TryI32(roundIndex).GetOr(0), TryI32(idx).GetOr(0) + 1,
      TryI32(score).GetOr(0), TryI32(par).GetOr(0), FromI32(diff))
  }

  /** The line scores of a round's hole elements, in order. */
  function LineScores(lineScoresJson: seq<Json>, roundIndex: nat): (r: seq<LineScore>)
    ensures |r| == |lineScoresJson|
  {
    Indexed(lineScoresJson, (ln: Json, idx: nat) => LineScoreOf(ln, idx, roundIndex))
  }

  /** f applied to each element and its position, in order. */
  function Indexed<T>(items: seq<Json>, f: (Json, nat) -> T): (r: seq<T>)
    ensures |r| == |items|
  {
    if |items| == 0 then []
    else
      var n := |items| - 1;
      Indexed(items[..n], f) + [f(items[n], n)]
  }

  lemma {:induction false} IndexedAt<T>(items: seq<Json>, f: (Json, nat) -> T, k: nat)
    requires k < |items|
    ensures Indexed(items, f)[k] == f(items[k], k)
  {
    var n := |items| - 1;
    if k < n {
      IndexedAt(items[..n], f, k);
      assert items[..n][k] == items[k];
    }
  }

  lemma IndexedSnoc<T>(items: seq<Json>, f: (Json, nat) -> T, i: nat)
    requires i < |items|
    ensures Indexed(items[..i + 1], f) == Indexed(items[..i], f) + [f(items[i], i)]
  {
    assert items[..i + 1][..i] == items[..i];
  }

  /** Entry k of the line scores is built from hole element k: one entry per element, in order. */
  lemma LineScoresAt(lineScoresJson: seq<Json>, roundIndex: nat, k: nat)
    requires k < |lineScoresJson|
    ensures LineScores(lineScoresJson, roundIndex)[k] == LineScoreOf(lineScoresJson[k], k, roundIndex)
  {
    IndexedAt(lineScoresJson, (ln: Json, idx: nat) => LineScoreOf(ln, idx, roundIndex), k);
  }

  /** `process_line_scores`: one line score per hole element, in order. */
  method ProcessLineScores(lineScoresJson: seq<Json>, roundIndex: nat) returns (lineScores: seq<LineScore>)
    ensures lineScores == LineScores(lineScoresJson, roundIndex)
  {
    lineScores := [];
    var idx := 0;
    while idx < |lineScoresJson|
      invariant 0 <= idx <= |lineScoresJson|
      invariant lineScores == LineScores(lineScoresJson[..idx], roundIndex)
    {
      var ln := lineScoresJson[idx];
      var lineScore := LineScoreOf(ln, idx, roundIndex);
      IndexedSnoc(lineScoresJson, (ln: Json, idx: nat) => LineScoreOf(ln, idx, roundIndex), idx);
      lineScores := lineScores + [lineScore];
      idx := idx + 1;
    }
    assert lineScoresJson[..idx] == lineScoresJson;
  }

  /**
   * The hole number is the 1-based position, the round is the round index, and
   * the label comes from par minus strokes (Par when that difference is not an i32).
   */
  lemma LineScoreOfFields(ln: Json, idx: nat, roundIndex: nat)
    requires idx < I32_MAX && roundIndex <= I32_MAX
    ensures LineScoreOf(ln, idx, roundIndex).hole == idx + 1
    ensures LineScoreOf(ln, idx, roundIndex).round == roundIndex
    ensures I32_MIN <= HoleScore(ln) <= I32_MAX ==> LineScoreOf(ln, idx, roundIndex).score == HoleScore(ln)
    ensures I32_MIN <= HolePar(ln) <= I32_MAX ==> LineScoreOf(ln, idx, roundIndex).par == HolePar(ln)
    ensures var d := HolePar(ln) - HoleScore(ln);
      LineScoreOf(ln, idx, roundIndex).scoreDisplay == if -5 <= d <= 10 then FromI32(d) else Par
  {
    var d := HolePar(ln) - HoleScore(ln);
    var r := LineScoreOf(ln, idx, roundIndex);
    assert r.scoreDisplay == FromI32(TryI32(d).GetOr(0));
    if TryI32(d).None? {
      assert FromI32(0) == Par;
    }
  }

  /** A hole element without `par` or `displayValue` counts as par 0, score 0. */
  lemma MissingFieldsAreZero(ln: Json)
    requires Get(ln, "par").None? && Get(ln, "displayValue").None?
    ensures LineScoreOf(ln, 0, 0) == LineScore(0, 1, 0, 0, Par)
  {
    MissingScoreIsZero(ln);
    assert HolePar(ln) == 0;
  }

  lemma MissingScoreIsZero(ln: Json)
    requires Get(ln, "displayValue").None?
    ensures HoleScore(ln) == 0
  {
    assert GetStr(ln, "displayValue").GetOr("") == "";
  }

  /**
   * The label is taken from par minus strokes, so a hole played one over par
   * is labelled Birdie and one played one under par is labelled Bogey.
   */
  lemma LabelUsesParMinusStrokes(ln: Json, idx: nat, roundIndex: nat)
    requires idx < I32_MAX && roundIndex <= I32_MAX
    ensures HoleScore(ln) == HolePar(ln) + 1 ==> LineScoreOf(ln, idx, roundIndex).scoreDisplay == Birdie
    ensures HoleScore(ln) == HolePar(ln) - 1 ==> LineScoreOf(ln, idx, roundIndex).scoreDisplay == Bogey
  {
    LineScoreOfFields(ln, idx, roundIndex);
  }

  /** A hole element whose `par` is 4 and whose `displayValue` is "5" reads as par 4, 5 strokes. */
  lemma ParFourFiveStrokes(ln: Json)
    requires GetI64(ln, "par") == Some(4) && GetStr(ln, "displayValue") == Some("5")
    ensures HolePar(ln) == 4 && HoleScore(ln) == 5
  {
    SmallNumerals();
  }

  /** A par 4 played in 5 strokes, the first hole of the first round: score 5, par 4, labelled Birdie. */
  lemma OverParExample(ln: Json)
    requires GetI64(ln, "par") == Some(4) && GetStr(ln, "displayValue") == Some("5")
    ensures HolePar(ln) == 4 && HoleScore(ln) == 5
    ensures LineScoreOf(ln, 0, 0) == LineScore(0, 1, 5, 4, Birdie)
  {
    ParFourFiveStrokes(ln);
    LineScoreOfFields(ln, 0, 0);
    assert FromI32(-1) == Birdie;
  }

  lemma SmallNumerals()
    ensures ParseI64("5") == Some(5) && ParseI32("3") == Some(3)
    ensures TrimStartMatches("5", '+') == "5" && TrimStartMatches("3", '+') == "3"
  {
    assert ParseDigits("5") == Some(5) && ParseDigits("3") == Some(3);
  }

  /** `process_round_score`: leading '+' signs dropped, then parsed as i32, or 0. */
  function RoundScore(displayValue: string): (r: IntStat)
    ensures I32_MIN <= r.val <= I32_MAX
  {
    IntStat(ParseI32(TrimStartMatches(displayValue, '+')).GetOr(0))
  }

  /** Every i32 reads back from its own spelling, with or without a '+' in front. */
  lemma RoundScoreReadsIntegers(n: int)
    requires I32_MIN <= n <= I32_MAX
    ensures RoundScore(IntToString(n)).val == n
    ensures n >= 0 ==> RoundScore("+" + IntToString(n)).val == n
  {
    ParseIntToString(n, I32_MIN, I32_MAX);
    IntToStringShape(n);
    if n >= 0 {
      assert TrimStartMatches("+" + IntToString(n), '+') == IntToString(n) by {
        assert ("+" + IntToString(n))[1..] == IntToString(n);
      }
    }
  }

  lemma RoundScoreExamples()
    ensures RoundScore("+3").val == 3 && RoundScore("-2").val == -2 && RoundScore("E").val == 0
  {
    RoundScoreOfPlusThree();
    RoundScoreOfMinusTwo();
    RoundScoreOfEven();
  }

  lemma RoundScoreOfPlusThree()
    ensures RoundScore("+3").val == 3
  {
    RoundScoreReadsIntegers(3);
    assert IntToString(3) == "3";
    assert "+" + "3" == "+3";
  }

  lemma RoundScoreOfMinusTwo()
    ensures RoundScore("-2").val == -2
  {
    assert TrimStartMatches("-2", '+') == "-2";
    assert "-2"[1..] == "2";
    assert ParseDigits("2") == Some(2);
  }

  /** "E" (even par) is not a number, so it reads as 0. */
  lemma RoundScoreOfEven()
    ensures RoundScore("E").val == 0
  {
    assert TrimStartMatches("E", '+') == "E";
    assert ParseDigits("E") == None;
  }

  function SumVals(stats: seq<IntStat>): int {
    if |stats| == 0 then 0 else SumVals(stats[..|stats| - 1]) + stats[|stats| - 1].val
  }

  /** `calculate_total_score`: the sum of the values. */
  function TotalScore(roundScores: seq<IntStat>): (total: int)
    ensures |roundScores| == 0 ==> total == 0
    ensures |roundScores| > 0 ==> total == TotalScore(roundScores[..|roundScores| - 1]) + roundScores[|roundScores| - 1].val
  {
    SumVals(roundScores)
  }

  /** The total of two runs of rounds is the sum of their totals. */
  lemma {:induction false} TotalScoreAppend(a: seq<IntStat>, b: seq<IntStat>)
    ensures TotalScore(a + b) == TotalScore(a) + TotalScore(b)
    decreases |b|
  {
    if |b| > 0 {
      assert (a + b)[..|a + b| - 1] == a + b[..|b| - 1];
      TotalScoreAppend(a, b[..|b| - 1]);
    } else {
      assert a + b == a;
    }
  }
}
