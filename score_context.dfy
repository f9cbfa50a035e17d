/**
 * The scoreboard of core/src/score/context.rs: bettor totals summed from
 * their golfers, ranked by total and then by name, with a position and a
 * position title, alongside the unchanged golfer rows and the time since the
 * last refresh.
 */
module ScoreContext {
  import opened Text
  import opened ScoreModel
  import opened Sorting
  import opened Collections
  import opened TimeAgo

  datatype RefreshSource = Db | Espn

  /** Golfer rows with the time (in whole seconds) and the origin of their last refresh. */
  datatype ScoresAndLastRefresh = ScoresAndLastRefresh(scoreStruct: seq<Scores>, lastRefresh: int,
    lastRefreshSource: RefreshSource)

  /** One scoreboard line. */
  datatype Bettors = Bettors(bettorName: string, totalScore: int, scoreboardPositionName: string,
    scoreboardPosition: int)

  datatype ScoreData = ScoreData(bettorStruct: seq<Bettors>, scoreStruct: seq<Scores>, lastRefresh: TimeAgo,
    lastRefreshSource: RefreshSource, cacheHit: bool)

  // ----- what the scoreboard means -----

  /** The bettors that picked at least one golfer. */
  function BettorNames(scores: seq<Scores>): set<string> {
    set s | s in scores :: s.bettorName
  }

  /** The sum of total_score over the golfers picked by bettor b. */
  function BettorTotal(scores: seq<Scores>, b: string): int {
    if |scores| == 0 then 0
    else
      var n := |scores| - 1;
      BettorTotal(scores[..n], b) + (if scores[n].bettorName == b then scores[n].detailedStatistics.totalScore else 0)
  }

  /** The sum of total_score over every golfer. */
  function GrandTotal(scores: seq<Scores>): int {
    if |scores| == 0 then 0 else GrandTotal(scores[..|scores| - 1]) + scores[|scores| - 1].detailedStatistics.totalScore
  }

  /** The title of a scoreboard position. */
  function PositionName(i: int): string {
    match i
    case 0 => "TOP GOLFER"
    case 1 => "FIRST LOSER"
    case 2 => "MEH"
    case 3 => "SEEN BETTER DAYS"
    case 4 => "NOT A CHANCE"
    case _ => "WORST OF THE WORST"
  }

  /** The comparator of the sort: total first, then name. */
  predicate RankLeq(a: Bettors, b: Bettors) {
    a.totalScore < b.totalScore || (a.totalScore == b.totalScore && LessEq(a.bettorName, b.bettorName))
  }

  /** a ranks strictly above b. */
  predicate Before(a: Bettors, b: Bettors) {
    a.totalScore < b.totalScore || (a.totalScore == b.totalScore && Less(a.bettorName, b.bettorName))
  }

  /**
   * The scoreboard of a set of golfer rows: one line per bettor with that
   * bettor's total, strictly ranked by (total, name), and each line holding
   * its own index and the title for it.
   */
  ghost predicate Scoreboard(scores: seq<Scores>, bs: seq<Bettors>) {
    (forall b :: b in BettorNames(scores) <==> exists i :: 0 <= i < |bs| && bs[i].bettorName == b) &&
    (forall i :: 0 <= i < |bs| ==>
      bs[i].totalScore == BettorTotal(scores, bs[i].bettorName) &&
      bs[i].scoreboardPosition == i && bs[i].scoreboardPositionName == PositionName(i)) &&
    (forall i, j :: 0 <= i < j < |bs| ==> Before(bs[i], bs[j]))
  }

  // ----- the computation -----

  /**
   * `score_data_from_scores_with_cache`; `now` stands for the wall clock the
   * source reads to measure the time since the last refresh.
   */
  method ScoreDataFromScoresWithCache(scores: ScoresAndLastRefresh, cacheHit: bool, now: int) returns (data: ScoreData)
    ensures Scoreboard(scores.scoreStruct, data.bettorStruct)
    ensures |data.bettorStruct| == |BettorNames(scores.scoreStruct)|
    ensures data.scoreStruct == scores.scoreStruct
    ensures data.lastRefresh == FormatTimeAgo(now - scores.lastRefresh)
    ensures data.lastRefreshSource == scores.lastRefreshSource && data.cacheHit == cacheHit
  {
    var totals := BettorTotals(scores.scoreStruct);
    var entries := Entries(totals);
    RankLeqIsTotalPreorder();
    var sorted := SortBy(entries, RankLeq);
    SortBySorted(entries, RankLeq);
    SortByPermutes(entries, RankLeq);
    SortedEntries(scores.scoreStruct, totals, entries, sorted);
    var bettors := AssignPositions(sorted);
    PositionedScoreboard(scores.scoreStruct, sorted, bettors);
    data := ScoreData(bettors, scores.scoreStruct, FormatTimeAgo(now - scores.lastRefresh), scores.lastRefreshSource, cacheHit);
  }

  /** The ranked lines before positions are filled in. */
  ghost predicate Ranked(scores: seq<Scores>, sorted: seq<Bettors>) {
    (forall b :: b in BettorNames(scores) <==> exists i :: 0 <= i < |sorted| && sorted[i].bettorName == b) &&
    (forall i :: 0 <= i < |sorted| ==> sorted[i].totalScore == BettorTotal(scores, sorted[i].bettorName)) &&
    (forall i, j :: 0 <= i < j < |sorted| ==> Before(sorted[i], sorted[j]))
  }

  /** The `iter_mut().enumerate()` pass: each line gets its index and the title for it. */
  method AssignPositions(sorted: seq<Bettors>) returns (bettors: seq<Bettors>)
    ensures |bettors| == |sorted|
    ensures forall k :: 0 <= k < |sorted| ==>
      bettors[k] == sorted[k].(scoreboardPosition := k, scoreboardPositionName := PositionName(k))
  {
    bettors := sorted;
    for i := 0 to |bettors|
      invariant |bettors| == |sorted|
      invariant forall k :: 0 <= k < i ==> bettors[k] == sorted[k].(scoreboardPosition := k, scoreboardPositionName := PositionName(k))
      invariant forall k :: i <= k < |bettors| ==> bettors[k] == sorted[k]
    {
      bettors := bettors[i := bettors[i].(scoreboardPosition := i, scoreboardPositionName := PositionName(i))];
    }
  }

  /** Filling in positions keeps names, totals and order. */
  lemma PositionedScoreboard(scores: seq<Scores>, sorted: seq<Bettors>, bettors: seq<Bettors>)
    requires Ranked(scores, sorted)
    requires |bettors| == |sorted|
    requires forall k :: 0 <= k < |sorted| ==>
      bettors[k] == sorted[k].(scoreboardPosition := k, scoreboardPositionName := PositionName(k))
    ensures Scoreboard(scores, bettors)
  {
    forall b ensures b in BettorNames(scores) <==> exists i :: 0 <= i < |bettors| && bettors[i].bettorName == b {
      if b in BettorNames(scores) {
        var i :| 0 <= i < |sorted| && sorted[i].bettorName == b;
        assert bettors[i].bettorName == b;
      }
    }
    forall i, j | 0 <= i < j < |bettors| ensures Before(bettors[i], bettors[j]) {
      assert Before(sorted[i], sorted[j]);
    }
  }

  /** `score_data_from_scores`: a cache hit exactly when the rows came from the database. */
  method ScoreDataFromScores(scores: ScoresAndLastRefresh, now: int) returns (data: ScoreData)
    ensures Scoreboard(scores.scoreStruct, data.bettorStruct)
    ensures data.scoreStruct == scores.scoreStruct
    ensures data.lastRefresh == FormatTimeAgo(now - scores.lastRefresh)
    ensures data.lastRefreshSource == scores.lastRefreshSource
    ensures data.cacheHit <==> scores.lastRefreshSource == Db
  {
    data := ScoreDataFromScoresWithCache(scores, scores.lastRefreshSource.Db?, now);
  }

  /** The totals map: one entry per bettor, holding the sum of that bettor's golfers. */
  method BettorTotals(scores: seq<Scores>) returns (totals: map<string, int>)
    ensures totals.Keys == BettorNames(scores)
    ensures forall b :: b in totals ==> totals[b] == BettorTotal(scores, b)
  {
    totals := map[];
    for i := 0 to |scores|
      invariant totals.Keys == BettorNames(scores[..i])
      invariant forall b :: b in totals ==> totals[b] == BettorTotal(scores[..i], b)
    {
      var b := scores[i].bettorName;
      if b !in totals {
        BettorTotalAbsent(scores[..i], b);
      }
      var sum := if b in totals then totals[b] else 0;
      totals := totals[b := sum + scores[i].detailedStatistics.totalScore];
      assert scores[..i + 1][..i] == scores[..i];
      assert scores[..i + 1] == scores[..i] + [scores[i]];
    }
    assert scores[..|scores|] == scores;
  }

  /** A bettor without golfers totals zero. */
  lemma {:induction false} BettorTotalAbsent(scores: seq<Scores>, b: string)
    requires b !in BettorNames(scores)
    ensures BettorTotal(scores, b) == 0
  {
    if |scores| > 0 {
      var n := |scores| - 1;
      assert scores == scores[..n] + [scores[n]];
      BettorTotalAbsent(scores[..n], b);
    }
  }

  /** The names of a list of lines. */
  function NamesOf(bs: seq<Bettors>): set<string> {
    set k | 0 <= k < |bs| :: bs[k].bettorName
  }

  /** The line a bettor gets from the totals map before ranking. */
  predicate IsEntry(e: Bettors, totals: map<string, int>) {
    e.bettorName in totals && e == Bettors(e.bettorName, totals[e.bettorName], "", 0)
  }

  /** The totals map drained into lines, in whatever order the map yields its keys. */
  method Entries(totals: map<string, int>) returns (entries: seq<Bettors>)
    ensures NamesOf(entries) == totals.Keys && |entries| == |totals.Keys|
    ensures forall k :: 0 <= k < |entries| ==> IsEntry(entries[k], totals)
    ensures Distinct(entries)
  {
    entries := [];
    var rest := totals.Keys;
    while rest != {}
      invariant Drained(totals, entries, rest)
      decreases rest
    {
      var b := Pick(rest);
      DrainStep(totals, entries, rest, b);
      entries := entries + [Bettors(b, totals[b], "", 0)];
      rest := rest - {b};
    }
  }

  /** The lines drained so far: one per bettor no longer in rest, all distinct. */
  ghost predicate Drained(totals: map<string, int>, entries: seq<Bettors>, rest: set<string>) {
    && rest <= totals.Keys
    && NamesOf(entries) == totals.Keys - rest
    && |entries| + |rest| == |totals.Keys|
    && (forall k :: 0 <= k < |entries| ==> IsEntry(entries[k], totals))
    && Distinct(entries)
  }

  lemma DrainStep(totals: map<string, int>, entries: seq<Bettors>, rest: set<string>, b: string)
    requires Drained(totals, entries, rest) && b in rest
    ensures Drained(totals, entries + [Bettors(b, totals[b], "", 0)], rest - {b})
  {
    var e := Bettors(b, totals[b], "", 0);
    var r := entries + [e];
    NamesOfAppend(entries, e);
    assert NamesOf(r) == totals.Keys - (rest - {b});
    assert |rest - {b}| == |rest| - 1;
    assert forall k :: 0 <= k < |r| ==> IsEntry(r[k], totals) by {
      forall k | 0 <= k < |r| ensures IsEntry(r[k], totals) {
        if k < |entries| { assert r[k] == entries[k]; }
      }
    }
    DistinctConcat(entries, [e]);
  }

  lemma NamesOfAppend(bs: seq<Bettors>, e: Bettors)
    ensures NamesOf(bs + [e]) == NamesOf(bs) + {e.bettorName}
  {
    var r := bs + [e];
    assert r[|bs|].bettorName == e.bettorName;
    forall x | x in NamesOf(bs) ensures x in NamesOf(r) {
      var k :| 0 <= k < |bs| && bs[k].bettorName == x;
      assert r[k] == bs[k];
    }
  }

  method Pick<T>(s: set<T>) returns (x: T)
    requires s != {}
    ensures x in s
  {
    x :| x in s;
  }

  lemma RankLeqIsTotalPreorder()
    ensures TotalPreorder(RankLeq)
  {
    LessEqIsTotalOrder();
  }

  /** The sorted lines are the scoreboard before positions are filled in. */
  lemma SortedEntries(scores: seq<Scores>, totals: map<string, int>, entries: seq<Bettors>, sorted: seq<Bettors>)
    requires totals.Keys == BettorNames(scores)
    requires forall b :: b in totals ==> totals[b] == BettorTotal(scores, b)
    requires NamesOf(entries) == totals.Keys && |entries| == |totals.Keys|
    requires forall k :: 0 <= k < |entries| ==> IsEntry(entries[k], totals)
    requires Distinct(entries)
    requires multiset(sorted) == multiset(entries) && SortedBy(sorted, RankLeq)
    ensures |sorted| == |BettorNames(scores)|
    ensures Ranked(scores, sorted)
  {
    PermutedEntries(totals, entries, sorted);
    PermutationKeepsDistinct(entries, sorted);
    StrictlyRanked(totals, sorted);
    forall b ensures b in BettorNames(scores) <==> exists i :: 0 <= i < |sorted| && sorted[i].bettorName == b {
      assert b in BettorNames(scores) <==> b in NamesOf(sorted);
    }
  }

  /** A reordering of the drained lines holds the same lines, so the same names. */
  lemma PermutedEntries(totals: map<string, int>, entries: seq<Bettors>, sorted: seq<Bettors>)
    requires forall k :: 0 <= k < |entries| ==> IsEntry(entries[k], totals)
    requires multiset(sorted) == multiset(entries)
    ensures |sorted| == |entries|
    ensures forall i :: 0 <= i < |sorted| ==> IsEntry(sorted[i], totals)
    ensures NamesOf(sorted) == NamesOf(entries)
  {
    assert |sorted| == |entries| by {
      assert |multiset(sorted)| == |multiset(entries)|;
    }
    forall i | 0 <= i < |sorted| ensures IsEntry(sorted[i], totals) && sorted[i].bettorName in NamesOf(entries) {
      assert sorted[i] in multiset(entries);
      var k :| 0 <= k < |entries| && entries[k] == sorted[i];
    }
    forall b | b in NamesOf(entries) ensures b in NamesOf(sorted) {
      var k :| 0 <= k < |entries| && entries[k].bettorName == b;
      assert entries[k] in multiset(sorted);
      var i :| 0 <= i < |sorted| && sorted[i] == entries[k];
    }
  }

  /** Distinct lines from the totals map, sorted by (total, name), are strictly ranked. */
  lemma StrictlyRanked(totals: map<string, int>, sorted: seq<Bettors>)
    requires forall i :: 0 <= i < |sorted| ==> IsEntry(sorted[i], totals)
    requires Distinct(sorted) && SortedBy(sorted, RankLeq)
    ensures forall i, j :: 0 <= i < j < |sorted| ==> Before(sorted[i], sorted[j])
  {
    forall i, j | 0 <= i < j < |sorted| ensures Before(sorted[i], sorted[j]) {
      assert IsEntry(sorted[i], totals) && IsEntry(sorted[j], totals);
      assert sorted[i].bettorName != sorted[j].bettorName;
      assert RankLeq(sorted[i], sorted[j]);
    }
  }

  // ----- properties -----

  /**
   * The scoreboard does not depend on the order in which the totals map
   * yields its bettors: any two scoreboards of the same rows are equal.
   */
  lemma ScoreboardUnique(scores: seq<Scores>, a: seq<Bettors>, b: seq<Bettors>)
    requires Scoreboard(scores, a) && Scoreboard(scores, b)
    ensures a == b
  {
    var leq := (x: string, y: string) => NameRankLeq(scores, x, y);
    NameRankIsTotalOrder(scores);
    var na := seq(|a|, i requires 0 <= i < |a| => a[i].bettorName);
    var nb := seq(|b|, i requires 0 <= i < |b| => b[i].bettorName);
    forall i, j | 0 <= i < j < |na| ensures leq(na[i], na[j]) && na[i] != na[j] {
      BeforeRanksNames(scores, a[i], a[j]);
    }
    forall i, j | 0 <= i < j < |nb| ensures leq(nb[i], nb[j]) && nb[i] != nb[j] {
      BeforeRanksNames(scores, b[i], b[j]);
    }
    forall x ensures x in na <==> x in nb {
      if x in na {
        var i :| 0 <= i < |na| && na[i] == x;
        assert a[i].bettorName == x;
        assert x in BettorNames(scores);
        var j :| 0 <= j < |b| && b[j].bettorName == x;
        assert nb[j] == x;
      }
      if x in nb {
        var i :| 0 <= i < |nb| && nb[i] == x;
        assert b[i].bettorName == x;
        assert x in BettorNames(scores);
        var j :| 0 <= j < |a| && a[j].bettorName == x;
        assert na[j] == x;
      }
    }
    AscendingUnique(na, nb, leq);
    assert |a| == |b|;
    forall i | 0 <= i < |a| ensures a[i] == b[i] {
      assert na[i] == nb[i];
    }
  }

  lemma BeforeRanksNames(scores: seq<Scores>, x: Bettors, y: Bettors)
    requires Before(x, y)
    requires x.totalScore == BettorTotal(scores, x.bettorName) && y.totalScore == BettorTotal(scores, y.bettorName)
    ensures NameRankLeq(scores, x.bettorName, y.bettorName) && x.bettorName != y.bettorName
  {
    if x.bettorName == y.bettorName {
      LessIrreflexive(x.bettorName);
    }
  }

  /** The ranking order on bettor names for fixed golfer rows. */
  predicate NameRankLeq(scores: seq<Scores>, x: string, y: string) {
    BettorTotal(scores, x) < BettorTotal(scores, y) || (BettorTotal(scores, x) == BettorTotal(scores, y) && LessEq(x, y))
  }

  lemma NameRankIsTotalOrder(scores: seq<Scores>)
    ensures TotalOrder((x: string, y: string) => NameRankLeq(scores, x, y))
  {
    LessEqIsTotalOrder();
  }

  /** The bettor totals add up to the total of all golfers: nothing is lost or counted twice. */
  lemma {:induction false} BettorTotalsAddUp(scores: seq<Scores>)
    ensures SumOver(BettorNames(scores), TotalOf(scores)) == GrandTotal(scores)
  {
    if |scores| > 0 {
      var n := |scores| - 1;
      var init, s := scores[..n], scores[n];
      BettorTotalsAddUp(init);
      var names := BettorNames(init);
      var b := s.bettorName;
      BettorNamesAppend(init, s);
      assert scores == init + [s];
      SumOverRemove(BettorNames(scores), TotalOf(scores), b);
      OtherTotalsUnchanged(init, s, names - {b});
      if b in names {
        SumOverRemove(names, TotalOf(init), b);
      } else {
        BettorTotalAbsent(init, b);
        assert names - {b} == names;
      }
    }
  }

  /** The bettor-total function of a set of rows. */
  function TotalOf(scores: seq<Scores>): string -> int {
    b => BettorTotal(scores, b)
  }

  lemma BettorNamesAppend(init: seq<Scores>, s: Scores)
    ensures BettorNames(init + [s]) == BettorNames(init) + {s.bettorName}
    ensures BettorNames(init + [s]) - {s.bettorName} == BettorNames(init) - {s.bettorName}
  {
    assert (init + [s])[|init|] == s;
  }

  /** Appending a row leaves every other bettor's total, and so their sum, unchanged. */
  lemma OtherTotalsUnchanged(init: seq<Scores>, s: Scores, keys: set<string>)
    requires s.bettorName !in keys
    ensures SumOver(keys, TotalOf(init + [s])) == SumOver(keys, TotalOf(init))
  {
    var scores := init + [s];
    assert scores[..|init|] == init;
    SumOverCongruent(keys, TotalOf(scores), TotalOf(init));
  }

  /** The first five places have their own titles; every later place is the worst of the worst. */
  lemma PositionNamesDistinct(i: int, j: int)
    requires 0 <= i < j && i < 5
    ensures PositionName(i) != PositionName(j)
  {
  }
}
