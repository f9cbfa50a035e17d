/**
 * The per-golfer statistics records of core/src/model/score.rs and the
 * `ScoreDisplay` label of a hole result.
 */
module ScoreModel {
  import opened Wrappers

  datatype ScoreDisplay =
    | DoubleCondor | Condor | Albatross | Eagle | Birdie | Par
    | Bogey | DoubleBogey | TripleBogey | QuadrupleBogey | QuintupleBogey
    | SextupleBogey | SeptupleBogey | OctupleBogey | NonupleBogey | DodecupleBogey

  datatype IntStat = IntStat(val: int)
  datatype StringStat = StringStat(val: string)

  datatype LineScore = LineScore(round: int, hole: int, score: int, par: int, scoreDisplay: ScoreDisplay)

  datatype Statistic = Statistic(
    eupId: int,
    rounds: seq<IntStat>,
    roundScores: seq<IntStat>,
    teeTimes: seq<StringStat>,
    holesCompletedByRound: seq<IntStat>,
    lineScores: seq<LineScore>,
    totalScore: int)

  /** One golfer of an event with the bettor who picked them (core/src/model/types.rs). */
  datatype Scores = Scores(
    eupId: int,
    espnId: int,
    golferName: string,
    bettorName: string,
    detailedStatistics: Statistic,
    group: int,
    scoreViewStepFactor: Option<real>)

  /** The difference each label stands for (-5 for DoubleCondor up to 10 for DodecupleBogey). */
  function Offset(d: ScoreDisplay): (n: int)
    ensures -5 <= n <= 10
  {
    match d
    case DoubleCondor => -5
    case Condor => -4
    case Albatross => -3
    case Eagle => -2
    case Birdie => -1
    case Par => 0
    case Bogey => 1
    case DoubleBogey => 2
    case TripleBogey => 3
    case QuadrupleBogey => 4
    case QuintupleBogey => 5
    case SextupleBogey => 6
    case SeptupleBogey => 7
    case OctupleBogey => 8
    case NonupleBogey => 9
    case DodecupleBogey => 10
  }

  /**
   * `ScoreDisplay::from_i32`, which `From<i32>` delegates to: the label whose
   * offset is i for -5..10, Par for every other value.
   */
  function FromI32(i: int): (d: ScoreDisplay)
    ensures -5 <= i <= 10 ==> Offset(d) == i
    ensures !(-5 <= i <= 10) ==> d == Par
  {
    match i
    case -5 => DoubleCondor
    case -4 => Condor
    case -3 => Albatross
    case -2 => Eagle
    case -1 => Birdie
    case 1 => Bogey
    case 2 => DoubleBogey
    case 3 => TripleBogey
    case 4 => QuadrupleBogey
    case 5 => QuintupleBogey
    case 6 => SextupleBogey
    case 7 => SeptupleBogey
    case 8 => OctupleBogey
    case 9 => NonupleBogey
    case 10 => DodecupleBogey
    case _ => Par
  }

  /** Every label is produced by its own offset: the mapping is onto. */
  lemma FromI32Offset(d: ScoreDisplay)
    ensures FromI32(Offset(d)) == d
  {
  }

  /** On -5..10 different differences get different labels. */
  lemma FromI32Injective(a: int, b: int)
    requires -5 <= a <= 10 && -5 <= b <= 10
    requires FromI32(a) == FromI32(b)
    ensures a == b
  {
    assert Offset(FromI32(a)) == a && Offset(FromI32(b)) == b;
  }

  /** One bettor's per-round totals: 0-based round numbers and their summed scores. */
  datatype BettorScoreByRound = BettorScoreByRound(bettorName: string, computedRounds: seq<int>,
    scoresAggregatedByGolfGrpByRd: seq<int>)

  /** One (bettor, golfer) row: 1-based round numbers and the score of each. */
  datatype DetailedScore = DetailedScore(bettorName: string, golferName: string, golferEspnId: int,
    rounds: seq<int>, scores: seq<int>)
}
