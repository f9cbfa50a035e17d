/**
 * Helpers of the score page's view (core/src/view/score/utils.rs): the short
 * form of a golfer's name, and the line-score tables, which group the golfer
 * rows by bettor and golfer in ascending name order, concatenate the rows of
 * a golfer listed twice and order each golfer's hole scores by round and hole.
 */
module ScoreViewUtils {
  import opened Text
  import opened Sorting
  import opened Collections
  import opened ScoreModel

  // ----- short golfer name -----

  /** `short_golfer_name`: the first word's initial, ". " and the last word; a name without words is kept. */
  function ShortGolferName(name: string): (r: string)
    ensures |Words(name)| == 0 ==> r == name
    ensures |Words(name)| > 0 ==> |r| >= 3 && r[..3] == [Words(name)[0][0], '.', ' '] && r[3..] in Words(name)
  {
    var parts := Words(name);
    if |parts| > 0 then [parts[0][0]] + ". " + parts[|parts| - 1]
    else name
  }

  /** A name written as words separated by single spaces shortens to the first initial and the last word. */
  lemma ShortNameOfWords(parts: seq<string>)
    requires |parts| >= 1
    requires forall i :: 0 <= i < |parts| ==> parts[i] != [] && NoneMatch(parts[i], IsWhitespace)
    ensures ShortGolferName(Join(parts, " ")) == [parts[0][0]] + ". " + parts[|parts| - 1]
  {
    WordsOfJoin(parts);
    ShortNameOfSplit(Join(parts, " "), parts);
  }

  lemma ShortNameOfSplit(name: string, parts: seq<string>)
    requires |parts| >= 1 && Words(name) == parts
    ensures ShortGolferName(name) == [parts[0][0]] + ". " + parts[|parts| - 1]
  {
  }

  /** A blank name comes back unchanged. */
  lemma BlankNameKept(name: string)
    requires forall i :: 0 <= i < |name| ==> IsWhitespace(name[i])
    ensures ShortGolferName(name) == name
  {
    SplitSeparatorsOnly(name, IsWhitespace);
    NonEmptyOfEmpties(SplitBy(name, IsWhitespace));
  }

  // ----- line-score tables -----

  datatype GolferData = GolferData(golferName: string, linescores: seq<LineScore>, teeTimes: seq<StringStat>)
  datatype BettorData = BettorData(bettorName: string, golfers: seq<GolferData>)

  /** A golfer's hole scores and tee times, as gathered so far. */
  type GolferScoreData = (seq<LineScore>, seq<StringStat>)

  /** Some row belongs to bettor b. */
  predicate HasBettor(scores: seq<Scores>, b: string) {
    exists i :: 0 <= i < |scores| && scores[i].bettorName == b
  }

  /** Some row pairs bettor b with golfer g. */
  predicate HasPair(scores: seq<Scores>, b: string, g: string) {
    exists i :: 0 <= i < |scores| && scores[i].bettorName == b && scores[i].golferName == g
  }

  /** The hole scores of every row pairing b with g, concatenated in row order. */
  function LineScoresOf(scores: seq<Scores>, b: string, g: string): seq<LineScore> {
    if |scores| == 0 then []
    else
      var n := |scores| - 1;
      LineScoresOf(scores[..n], b, g) +
        (if scores[n].bettorName == b && scores[n].golferName == g then scores[n].detailedStatistics.lineScores else [])
  }

  /** The tee times of every row pairing b with g, concatenated in row order. */
  function TeeTimesOf(scores: seq<Scores>, b: string, g: string): seq<StringStat> {
    if |scores| == 0 then []
    else
      var n := |scores| - 1;
      TeeTimesOf(scores[..n], b, g) +
        (if scores[n].bettorName == b && scores[n].golferName == g then scores[n].detailedStatistics.teeTimes else [])
  }

  /** One row added to the nested maps: both lists of its (bettor, golfer) entry are extended. */
  function AddRow(grouped: map<string, map<string, GolferScoreData>>, s: Scores): map<string, map<string, GolferScoreData>> {
    var golfers := if s.bettorName in grouped then grouped[s.bettorName] else map[];
    var cur := if s.golferName in golfers then golfers[s.golferName] else ([], []);
    grouped[s.bettorName := golfers[s.golferName :=
      (cur.0 + s.detailedStatistics.lineScores, cur.1 + s.detailedStatistics.teeTimes)]]
  }

  /** The nested maps after the first loop. */
  function Grouped(scores: seq<Scores>): map<string, map<string, GolferScoreData>> {
    if |scores| == 0 then map[] else AddRow(Grouped(scores[..|scores| - 1]), scores[|scores| - 1])
  }

  /** The maps hold an entry exactly for the bettors and pairs present, and it is the concatenation of their rows. */
  lemma {:induction false} GroupedIsConcatenation(scores: seq<Scores>, b: string, g: string)
    ensures b in Grouped(scores) <==> HasBettor(scores, b)
    ensures b in Grouped(scores) ==> (g in Grouped(scores)[b] <==> HasPair(scores, b, g))
    ensures HasPair(scores, b, g) ==> Grouped(scores)[b][g] == (LineScoresOf(scores, b, g), TeeTimesOf(scores, b, g))
  {
    if |scores| > 0 {
      var n := |scores| - 1;
      var init := scores[..n];
      GroupedIsConcatenation(init, b, g);
      assert forall i :: 0 <= i < n ==> init[i] == scores[i];
      if HasBettor(scores, b) && !HasBettor(init, b) {
        assert scores[n].bettorName == b;
      }
      var last := scores[n];
      var lastMatches := last.bettorName == b && last.golferName == g;
      assert LineScoresOf(scores, b, g) == LineScoresOf(init, b, g) + (if lastMatches then last.detailedStatistics.lineScores else []);
      assert TeeTimesOf(scores, b, g) == TeeTimesOf(init, b, g) + (if lastMatches then last.detailedStatistics.teeTimes else []);
      var grouped := Grouped(init);
      assert Grouped(scores) == AddRow(grouped, last);
      if lastMatches {
        if !HasPair(init, b, g) {
          NoPairNoLines(init, b, g);
        }
        var golfers := if b in grouped then grouped[b] else map[];
        var cur := if g in golfers then golfers[g] else ([], []);
        assert cur == (LineScoresOf(init, b, g), TeeTimesOf(init, b, g));
      } else if HasPair(scores, b, g) {
        assert HasPair(init, b, g);
        assert Grouped(scores)[b][g] == grouped[b][g];
        assert LineScoresOf(init, b, g) + [] == LineScoresOf(init, b, g);
        assert TeeTimesOf(init, b, g) + [] == TeeTimesOf(init, b, g);
      }
    }
  }

  lemma {:induction false} NoPairNoLines(scores: seq<Scores>, b: string, g: string)
    requires !HasPair(scores, b, g)
    ensures LineScoresOf(scores, b, g) == [] && TeeTimesOf(scores, b, g) == []
  {
    if |scores| > 0 {
      var n := |scores| - 1;
      NoPairNoLines(scores[..n], b, g);
    }
  }

  /** The `(round, hole)` key order of `sort_by_key`. */
  predicate RoundHoleLeq(x: LineScore, y: LineScore) {
    x.round < y.round || (x.round == y.round && x.hole <= y.hole)
  }

  lemma RoundHoleIsTotalPreorder()
    ensures TotalPreorder(RoundHoleLeq)
  {
  }

  /** A golfer's table: its rows' hole scores ordered by (round, hole), and its rows' tee times. */
  predicate GolferTable(scores: seq<Scores>, b: string, gd: GolferData) {
    && HasPair(scores, b, gd.golferName)
    && gd.linescores == SortBy(LineScoresOf(scores, b, gd.golferName), RoundHoleLeq)
    && gd.teeTimes == TeeTimesOf(scores, b, gd.golferName)
  }

  function GolferNames(golfers: seq<GolferData>): (r: seq<string>)
    ensures |r| == |golfers| && forall i :: 0 <= i < |r| ==> r[i] == golfers[i].golferName
  {
    seq(|golfers|, i requires 0 <= i < |golfers| => golfers[i].golferName)
  }

  function BettorNames(tables: seq<BettorData>): (r: seq<string>)
    ensures |r| == |tables| && forall i :: 0 <= i < |r| ==> r[i] == tables[i].bettorName
  {
    seq(|tables|, i requires 0 <= i < |tables| => tables[i].bettorName)
  }

  /** A bettor's table: every golfer it picked, once each, in ascending name order. */
  ghost predicate BettorTable(scores: seq<Scores>, t: BettorData) {
    && HasBettor(scores, t.bettorName)
    && Ascending(GolferNames(t.golfers), LessEq)
    && (forall g :: g in GolferNames(t.golfers) <==> HasPair(scores, t.bettorName, g))
    && (forall k :: 0 <= k < |t.golfers| ==> GolferTable(scores, t.bettorName, t.golfers[k]))
  }

  /**
   * `scores_and_last_refresh_to_line_score_tables`: one table per bettor, in
   * ascending name order, each as BettorTable describes.
   */
  method LineScoreTables(scores: seq<Scores>) returns (tables: seq<BettorData>)
    ensures Ascending(BettorNames(tables), LessEq)
    ensures forall b :: b in BettorNames(tables) <==> HasBettor(scores, b)
    ensures forall k :: 0 <= k < |tables| ==> BettorTable(scores, tables[k])
  {
    var grouped := GroupRows(scores);
    LessEqIsTotalOrder();
    var bettorNames := SortedKeys(grouped.Keys, LessEq);
    tables := [];
    for k := 0 to |bettorNames|
      invariant |tables| == k
      invariant forall j :: 0 <= j < k ==> tables[j].bettorName == bettorNames[j] && BettorTable(scores, tables[j])
    {
      var b := bettorNames[k];
      var golfers := BettorGolfers(scores, b, grouped[b]);
      tables := tables + [BettorData(b, golfers)];
    }
    assert BettorNames(tables) == bettorNames;
    forall b ensures b in bettorNames <==> HasBettor(scores, b) {
      GroupedIsConcatenation(scores, b, "");
    }
  }

  /** The first loop: every row extends its (bettor, golfer) entry's hole scores, then its tee times. */
  method GroupRows(scores: seq<Scores>) returns (grouped: map<string, map<string, GolferScoreData>>)
    ensures grouped == Grouped(scores)
  {
    grouped := map[];
    for i := 0 to |scores|
      invariant grouped == Grouped(scores[..i])
    {
      var s := scores[i];
      assert scores[..i + 1][..i] == scores[..i];
      ghost var expected := AddRow(grouped, s);
      var golfers := if s.bettorName in grouped then grouped[s.bettorName] else map[];
      var cur := if s.golferName in golfers then golfers[s.golferName] else ([], []);
      var withLines := (cur.0 + s.detailedStatistics.lineScores, cur.1);
      grouped := grouped[s.bettorName := golfers[s.golferName := withLines]];
      var golfers' := grouped[s.bettorName];
      var cur' := golfers'[s.golferName];
      var withTeeTimes := (cur'.0, cur'.1 + s.detailedStatistics.teeTimes);
      assert golfers'[s.golferName := withTeeTimes] == golfers[s.golferName := withTeeTimes];
      grouped := grouped[s.bettorName := golfers'[s.golferName := withTeeTimes]];
      assert grouped == expected;
    }
    assert scores[..|scores|] == scores;
  }

  /** The inner loop: the golfers of bettor b's map, ascending, each with its hole scores sorted. */
  method BettorGolfers(scores: seq<Scores>, b: string, golferMap: map<string, GolferScoreData>)
    returns (golfers: seq<GolferData>)
    requires b in Grouped(scores) && golferMap == Grouped(scores)[b]
    ensures HasBettor(scores, b)
    ensures Ascending(GolferNames(golfers), LessEq)
    ensures forall g :: g in GolferNames(golfers) <==> HasPair(scores, b, g)
    ensures forall k :: 0 <= k < |golfers| ==> GolferTable(scores, b, golfers[k])
  {
    var golferNames := GolferOrder(scores, b, golferMap);
    golfers := [];
    for k := 0 to |golferNames|
      invariant TablesSoFar(scores, b, golferNames[..k], golfers)
    {
      var gd := GolferEntry(scores, b, golferMap, golferNames[k]);
      TablesSnoc(scores, b, golferNames[..k], golfers, gd);
      assert golferNames[..k + 1] == golferNames[..k] + [golferNames[k]];
      golfers := golfers + [gd];
    }
    assert golferNames[..|golferNames|] == golferNames;
    assert GolferNames(golfers) == golferNames;
  }

  /** The keys of bettor b's map in ascending order: the golfers paired with b. */
  method GolferOrder(scores: seq<Scores>, b: string, golferMap: map<string, GolferScoreData>)
    returns (golferNames: seq<string>)
    requires b in Grouped(scores) && golferMap == Grouped(scores)[b]
    ensures HasBettor(scores, b)
    ensures Ascending(golferNames, LessEq)
    ensures forall g :: g in golferNames <==> HasPair(scores, b, g)
    ensures forall g :: g in golferNames ==> g in golferMap
  {
    GroupedIsConcatenation(scores, b, "");
    LessEqIsTotalOrder();
    golferNames := SortedKeys(golferMap.Keys, LessEq);
    forall g ensures g in golferNames <==> HasPair(scores, b, g) {
      GroupedIsConcatenation(scores, b, g);
    }
  }

  /** The golfer tables built for the names so far, one per name, in order. */
  ghost predicate TablesSoFar(scores: seq<Scores>, b: string, names: seq<string>, golfers: seq<GolferData>) {
    |golfers| == |names| &&
    forall j :: 0 <= j < |names| ==> golfers[j].golferName == names[j] && GolferTable(scores, b, golfers[j])
  }

  lemma TablesSnoc(scores: seq<Scores>, b: string, names: seq<string>, golfers: seq<GolferData>, gd: GolferData)
    requires TablesSoFar(scores, b, names, golfers) && GolferTable(scores, b, gd)
    ensures TablesSoFar(scores, b, names + [gd.golferName], golfers + [gd])
  {
    var n := names + [gd.golferName];
    var t := golfers + [gd];
    forall j | 0 <= j < |n| ensures t[j].golferName == n[j] && GolferTable(scores, b, t[j]) {
      if j < |names| {
        assert t[j] == golfers[j] && n[j] == names[j];
      }
    }
  }

  /** One golfer of bettor b's map, its hole scores sorted by (round, hole). */
  method GolferEntry(scores: seq<Scores>, b: string, golferMap: map<string, GolferScoreData>, g: string)
    returns (gd: GolferData)
    requires b in Grouped(scores) && golferMap == Grouped(scores)[b] && g in golferMap
    ensures gd.golferName == g && GolferTable(scores, b, gd)
  {
    GroupedIsConcatenation(scores, b, g);
    var (linescores, teeTimes) := golferMap[g];
    linescores := SortBy(linescores, RoundHoleLeq);
    gd := GolferData(g, linescores, teeTimes);
  }

  /** Each golfer's hole scores are ordered by (round, hole) and are exactly its rows' hole scores. */
  lemma GolferLinesSortedAndKept(scores: seq<Scores>, b: string, gd: GolferData)
    requires GolferTable(scores, b, gd)
    ensures SortedBy(gd.linescores, RoundHoleLeq)
    ensures multiset(gd.linescores) == multiset(LineScoresOf(scores, b, gd.golferName))
  {
    RoundHoleIsTotalPreorder();
    SortBySorted(LineScoresOf(scores, b, gd.golferName), RoundHoleLeq);
    SortByPermutes(LineScoresOf(scores, b, gd.golferName), RoundHoleLeq);
  }

  /** A golfer listed twice under one bettor keeps the hole scores of both rows, in row order. */
  lemma DuplicateRowsConcatenate(scores: seq<Scores>, r1: Scores, r2: Scores)
    requires r1.bettorName == r2.bettorName && r1.golferName == r2.golferName
    requires !HasPair(scores, r1.bettorName, r1.golferName)
    ensures LineScoresOf(scores + [r1, r2], r1.bettorName, r1.golferName) ==
      r1.detailedStatistics.lineScores + r2.detailedStatistics.lineScores
  {
    NoPairNoLines(scores, r1.bettorName, r1.golferName);
    assert (scores + [r1, r2])[..|scores| + 1] == scores + [r1];
    assert (scores + [r1])[..|scores|] == scores;
  }
}
