/**
 * Grouping a scoreboard's golfer records by group, by bettor and by
 * (bettor, golfer, round) (src/controller/score/score_aggregators.rs).
 *
 * A `HashMap` becomes a Dafny `map`; where the Rust code walks a `HashMap`
 * the model walks its keys in an arbitrary order (a `:|` choice), and every
 * result is proved independent of that order.  A `BTreeMap` is a `map`
 * walked in ascending key order.
 */
module ScoreAggregators {
  import opened Wrappers
  import opened Text
  import opened ScoreModel
  import opened Sorting
  import opened Collections

  const USIZE_MOD: int := 0x1_0000_0000_0000_0000

  /** `score.group as usize` on a 64-bit target: a negative group wraps around. */
  function GroupKey(group: int): (k: int)
    ensures 0 <= k < USIZE_MOD
    ensures 0 <= group < USIZE_MOD ==> k == group
    ensures I64_MIN <= group < 0 ==> k == group + USIZE_MOD
  {
    group % USIZE_MOD
  }

  /** The scores whose group maps to key k, in input order. */
  function InGroup(scores: seq<Scores>, k: int): seq<Scores> {
    if |scores| == 0 then []
    else
      var n := |scores| - 1;
      InGroup(scores[..n], k) + (if GroupKey(scores[n].group) == k then [scores[n]] else [])
  }

  /** A group holds exactly the scores with its key. */
  lemma {:induction false} InGroupMembers(scores: seq<Scores>, k: int)
    ensures forall x :: x in InGroup(scores, k) ==> x in scores && GroupKey(x.group) == k
    ensures forall i :: 0 <= i < |scores| && GroupKey(scores[i].group) == k ==> scores[i] in InGroup(scores, k)
  {
    if |scores| > 0 {
      var n := |scores| - 1;
      InGroupMembers(scores[..n], k);
      forall i | 0 <= i < n && GroupKey(scores[i].group) == k ensures scores[i] in InGroup(scores, k) {
        assert scores[..n][i] == scores[i];
      }
    }
  }

  lemma InGroupStep(scores: seq<Scores>, i: nat, k: int)
    requires i < |scores|
    ensures InGroup(scores[..i + 1], k) ==
      InGroup(scores[..i], k) + (if GroupKey(scores[i].group) == k then [scores[i]] else [])
  {
    assert scores[..i + 1][..i] == scores[..i];
  }

  predicate ByKey<V>(a: (int, V), b: (int, V)) { a.0 <= b.0 }

  /**
   * `group_by_scores`: one group per key that occurs, keys strictly
   * ascending, and each group holding exactly the scores of its key in input
   * order, so every score lands in exactly one group.
   */
  method GroupByScores(scores: seq<Scores>) returns (groups: seq<(int, seq<Scores>)>)
    ensures forall j :: 0 <= j < |groups| ==> groups[j].1 == InGroup(scores, groups[j].0) && groups[j].1 != []
    ensures forall j, j' :: 0 <= j < j' < |groups| ==> groups[j].0 < groups[j'].0
    ensures EveryKeyGrouped(scores, groups)
  {
    var grouped: map<int, seq<Scores>> := map[];
    // the order the map hands its keys out in; the sort below makes it irrelevant
    var keys: seq<int> := [];
    for i := 0 to |scores|
      invariant GroupedSoFar(scores, i, grouped, keys)
    {
      grouped, keys := GroupOne(scores, i, grouped, keys);
    }
    assert scores[..|scores|] == scores;
    groups := SortScores(grouped, keys);
    SortedGroups(scores, grouped, keys, groups);
  }

  /** Every score's key has a group. */
  predicate EveryKeyGrouped(scores: seq<Scores>, groups: seq<(int, seq<Scores>)>) {
    forall i :: 0 <= i < |scores| ==> exists j :: 0 <= j < |groups| && groups[j].0 == GroupKey(scores[i].group)
  }

  /** The loop's invariant: the map holds the non-empty groups of the first i scores, and keys lists its keys once each. */
  ghost predicate GroupedSoFar(scores: seq<Scores>, i: int, grouped: map<int, seq<Scores>>, keys: seq<int>) {
    && 0 <= i <= |scores|
    && Distinct(keys)
    && (forall k :: k in grouped ==> k in keys)
    && (forall j :: 0 <= j < |keys| ==> keys[j] in grouped)
    && (forall k :: k in grouped ==> grouped[k] == InGroup(scores[..i], k) && grouped[k] != [])
    && (forall k :: k !in grouped ==> InGroup(scores[..i], k) == [])
  }

  /** One pass of the loop: score i joins the group of its key, which is created (and its key listed) if new. */
  method GroupOne(scores: seq<Scores>, i: int, grouped: map<int, seq<Scores>>, keys: seq<int>)
    returns (grouped': map<int, seq<Scores>>, keys': seq<int>)
    requires i < |scores| && GroupedSoFar(scores, i, grouped, keys)
    ensures GroupedSoFar(scores, i + 1, grouped', keys')
  {
    var score := scores[i];
    var k := GroupKey(score.group);
    if k in grouped {
      grouped', keys' := grouped[k := grouped[k] + [score]], keys;
    } else {
      grouped', keys' := grouped[k := [score]], keys + [k];
    }
    forall k' ensures InGroup(scores[..i + 1], k') ==
      InGroup(scores[..i], k') + (if GroupKey(scores[i].group) == k' then [scores[i]] else [])
    {
      InGroupStep(scores, i, k');
    }
  }

  /** Sorting the finished map's entries gives the groups the method promises. */
  lemma SortedGroups(scores: seq<Scores>, grouped: map<int, seq<Scores>>, keys: seq<int>, groups: seq<(int, seq<Scores>)>)
    requires GroupedSoFar(scores, |scores|, grouped, keys) && scores[..|scores|] == scores
    requires groups == SortScores(grouped, keys)
    ensures forall j :: 0 <= j < |groups| ==> groups[j].1 == InGroup(scores, groups[j].0) && groups[j].1 != []
    ensures forall j, j' :: 0 <= j < j' < |groups| ==> groups[j].0 < groups[j'].0
    ensures EveryKeyGrouped(scores, groups)
  {
    SortScoresCorrect(grouped, keys);
    forall j | 0 <= j < |groups| ensures groups[j].1 == InGroup(scores, groups[j].0) && groups[j].1 != [] {
      assert groups[j] in groups;
    }
    forall m | 0 <= m < |scores| ensures exists j :: 0 <= j < |groups| && groups[j].0 == GroupKey(scores[m].group) {
      var k := GroupKey(scores[m].group);
      InGroupMembers(scores, k);
      assert scores[m] in InGroup(scores, k);
      assert (k, grouped[k]) in groups;
      var j :| 0 <= j < |groups| && groups[j] == (k, grouped[k]);
    }
  }

  /** The map's entries, in the order `keys` lists the map's keys. */
  function Entries(grouped: map<int, seq<Scores>>, keys: seq<int>): seq<(int, seq<Scores>)>
    requires forall j :: 0 <= j < |keys| ==> keys[j] in grouped
  {
    seq(|keys|, j requires 0 <= j < |keys| => (keys[j], grouped[keys[j]]))
  }

  /**
   * `sort_scores`: the map's entries, taken in the order `keys` lists the
   * map's keys, sorted by key.
   */
  function SortScores(grouped: map<int, seq<Scores>>, keys: seq<int>): seq<(int, seq<Scores>)>
    requires forall j :: 0 <= j < |keys| ==> keys[j] in grouped
  {
    SortBy(Entries(grouped, keys), ByKey)
  }

  /** The sorted entries are exactly the map's entries, with keys strictly ascending. */
  lemma SortScoresCorrect(grouped: map<int, seq<Scores>>, keys: seq<int>)
    requires Distinct(keys)
    requires forall k :: k in grouped ==> k in keys
    requires forall j :: 0 <= j < |keys| ==> keys[j] in grouped
    ensures var groups := SortScores(grouped, keys);
      (forall e :: e in groups ==> e.0 in grouped && e.1 == grouped[e.0]) &&
      (forall k :: k in grouped ==> (k, grouped[k]) in groups) &&
      (forall j, j' :: 0 <= j < j' < |groups| ==> groups[j].0 < groups[j'].0)
  {
    var entries := Entries(grouped, keys);
    var groups := SortBy(entries, ByKey);
    EntriesOfMap(grouped, keys);
    SortBySorted(entries, ByKey);
    SortByPermutes(entries, ByKey);
    PermutationKeepsDistinct(entries, groups);
    SameMembers(entries, groups);
    StrictlyAscending(groups, grouped);
  }

  /** Listing a map's entries by distinct keys gives distinct entries, each the map's own, and all of them. */
  lemma EntriesOfMap(grouped: map<int, seq<Scores>>, keys: seq<int>)
    requires Distinct(keys)
    requires forall k :: k in grouped ==> k in keys
    requires forall j :: 0 <= j < |keys| ==> keys[j] in grouped
    ensures var entries := Entries(grouped, keys);
      && Distinct(entries)
      && (forall e :: e in entries ==> e.0 in grouped && e.1 == grouped[e.0])
      && (forall k :: k in grouped ==> (k, grouped[k]) in entries)
  {
    var entries := Entries(grouped, keys);
    forall k | k in grouped ensures (k, grouped[k]) in entries {
      var j :| 0 <= j < |keys| && keys[j] == k;
      assert entries[j] == (k, grouped[k]);
    }
  }

  /** Two sequences with the same multiset have the same members. */
  lemma SameMembers<T>(a: seq<T>, b: seq<T>)
    requires multiset(a) == multiset(b)
    ensures forall e :: e in a <==> e in b
  {
    forall e ensures e in a <==> e in b {
      assert e in a <==> e in multiset(a);
      assert e in b <==> e in multiset(b);
    }
  }

  /** Sorted, distinct entries that all agree with one map have strictly ascending keys. */
  lemma StrictlyAscending(groups: seq<(int, seq<Scores>)>, grouped: map<int, seq<Scores>>)
    requires SortedBy(groups, ByKey) && Distinct(groups)
    requires forall e :: e in groups ==> e.0 in grouped && e.1 == grouped[e.0]
    ensures forall j, j' :: 0 <= j < j' < |groups| ==> groups[j].0 < groups[j'].0
  {
    forall j, j' | 0 <= j < j' < |groups| ensures groups[j].0 < groups[j'].0 {
      assert ByKey(groups[j], groups[j']);
      assert groups[j] in groups && groups[j'] in groups;
    }
  }

  /** Every score belongs to exactly one of the groups: the one of its own key. */
  lemma GroupsPartition(scores: seq<Scores>, groups: seq<(int, seq<Scores>)>, i: nat)
    requires forall j :: 0 <= j < |groups| ==> groups[j].1 == InGroup(scores, groups[j].0)
    requires i < |scores|
    ensures forall j :: 0 <= j < |groups| ==> (scores[i] in groups[j].1 <==> groups[j].0 == GroupKey(scores[i].group))
  {
    forall j | 0 <= j < |groups|
      ensures scores[i] in groups[j].1 <==> groups[j].0 == GroupKey(scores[i].group)
    {
      InGroupMembers(scores, groups[j].0);
    }
  }

  // ----- build_bettor_golfer_maps -----

  /** Round number (1-based) to summed round score, for one golfer of one bettor. */
  type RoundMap = map<int, int>
  type GolferMap = map<string, RoundMap>
  type BettorMap = map<string, GolferMap>

  /** The `entry(..).or_default()` chain followed by `and_modify(+=).or_insert`. */
  function AddRoundScore(m: BettorMap, b: string, g: string, r: int, v: int): BettorMap {
    var gm := if b in m then m[b] else map[];
    var rm := if g in gm then gm[g] else map[];
    m[b := gm[g := rm[r := if r in rm then rm[r] + v else v]]]
  }

  /** The entry for (b, g, r), if any. */
  function RoundTotal(m: BettorMap, b: string, g: string, r: int): Option<int> {
    if b in m && g in m[b] && r in m[b][g] then Some(m[b][g][r]) else None
  }

  /** Round i of rs (0-based) is added under round number i + 1. */
  function AddRounds(m: BettorMap, b: string, g: string, rs: seq<IntStat>): BettorMap {
    if |rs| == 0 then m
    else
      var n := |rs| - 1;
      AddRoundScore(AddRounds(m, b, g, rs[..n]), b, g, n + 1, rs[n].val)
  }

  /** The score map after the given scores. */
  function ScoresMap(scores: seq<Scores>): BettorMap {
    if |scores| == 0 then map[]
    else
      var n := |scores| - 1;
      AddRounds(ScoresMap(scores[..n]), scores[n].bettorName, scores[n].golferName,
        scores[n].detailedStatistics.roundScores)
  }

  /** The `espn_id_map` after the given scores: later inserts overwrite earlier ones. */
  function EspnIds(scores: seq<Scores>): map<(string, string), int> {
    if |scores| == 0 then map[]
    else
      var n := |scores| - 1;
      EspnIds(scores[..n])[(scores[n].bettorName, scores[n].golferName) := scores[n].espnId]
  }

  function Bettors(scores: seq<Scores>): (r: seq<string>)
    ensures |r| == |scores| && forall i :: 0 <= i < |scores| ==> r[i] == scores[i].bettorName
  {
    seq(|scores|, i requires 0 <= i < |scores| => scores[i].bettorName)
  }

  /** The golfer names of bettor b's scores, in input order, repeats included. */
  function GolfersOf(scores: seq<Scores>, b: string): seq<string> {
    if |scores| == 0 then []
    else
      var n := |scores| - 1;
      GolfersOf(scores[..n], b) + (if scores[n].bettorName == b then [scores[n].golferName] else [])
  }

  predicate Plays(s: Scores, b: string, g: string) {
    s.bettorName == b && s.golferName == g
  }

  /** Some score of bettor b and golfer g has a round number r (counting from 1). */
  predicate HasRound(scores: seq<Scores>, b: string, g: string, r: int) {
    exists i :: 0 <= i < |scores| && Plays(scores[i], b, g) && 1 <= r <= |scores[i].detailedStatistics.roundScores|
  }

  /** Round r's score of s, or 0 when s has no round r. */
  function RoundScoreOf(s: Scores, r: int): int {
    if 1 <= r <= |s.detailedStatistics.roundScores| then s.detailedStatistics.roundScores[r - 1].val else 0
  }

  /** The sum of round r over every score of bettor b and golfer g. */
  function RoundSum(scores: seq<Scores>, b: string, g: string, r: int): int {
    if |scores| == 0 then 0
    else
      var n := |scores| - 1;
      RoundSum(scores[..n], b, g, r) + (if Plays(scores[n], b, g) then RoundScoreOf(scores[n], r) else 0)
  }

  lemma AddRoundScoreAt(m: BettorMap, b: string, g: string, r: int, v: int, b': string, g': string, r': int)
    ensures RoundTotal(AddRoundScore(m, b, g, r, v), b', g', r') ==
      if b' == b && g' == g && r' == r then Some(RoundTotal(m, b, g, r).GetOr(0) + v)
      else RoundTotal(m, b', g', r')
  {
  }

  /** Adding a score's rounds adds round i of it under number i + 1 and touches nothing else. */
  lemma {:induction false} AddRoundsAt(m: BettorMap, b: string, g: string, rs: seq<IntStat>, b': string, g': string, r: int)
    ensures RoundTotal(AddRounds(m, b, g, rs), b', g', r) ==
      if b' == b && g' == g && 1 <= r <= |rs| then Some(RoundTotal(m, b, g, r).GetOr(0) + rs[r - 1].val)
      else RoundTotal(m, b', g', r)
  {
    if |rs| > 0 {
      var n := |rs| - 1;
      AddRoundsAt(m, b, g, rs[..n], b', g', r);
      AddRoundScoreAt(AddRounds(m, b, g, rs[..n]), b, g, n + 1, rs[n].val, b', g', r);
    }
  }

  /** Without a round r, the round-r sum is zero. */
  lemma {:induction false} RoundSumWithoutRound(scores: seq<Scores>, b: string, g: string, r: int)
    requires !HasRound(scores, b, g, r)
    ensures RoundSum(scores, b, g, r) == 0
  {
    if |scores| > 0 {
      var n := |scores| - 1;
      assert forall i :: 0 <= i < n ==> scores[..n][i] == scores[i];
      RoundSumWithoutRound(scores[..n], b, g, r);
    }
  }

  /**
   * The score map holds round r of (bettor, golfer) exactly when one of their
   * scores has a round r, and then holds the sum of those rounds over all
   * their scores: round keys are index + 1 and duplicates are summed.
   */
  lemma {:induction false} ScoresMapAt(scores: seq<Scores>, b: string, g: string, r: int)
    ensures RoundTotal(ScoresMap(scores), b, g, r) ==
      if HasRound(scores, b, g, r) then Some(RoundSum(scores, b, g, r)) else None
  {
    if |scores| > 0 {
      var n := |scores| - 1;
      var s := scores[n];
      ScoresMapAt(scores[..n], b, g, r);
      AddRoundsAt(ScoresMap(scores[..n]), s.bettorName, s.golferName, s.detailedStatistics.roundScores, b, g, r);
      HasRoundStep(scores, b, g, r);
      if !HasRound(scores[..n], b, g, r) {
        RoundSumWithoutRound(scores[..n], b, g, r);
      }
    }
  }

  /** Some score has a round r exactly when an earlier one does or the last one does. */
  lemma HasRoundStep(scores: seq<Scores>, b: string, g: string, r: int)
    requires |scores| > 0
    ensures var n := |scores| - 1;
      HasRound(scores, b, g, r) <==>
        HasRound(scores[..n], b, g, r) || (Plays(scores[n], b, g) && 1 <= r <= |scores[n].detailedStatistics.roundScores|)
  {
    var n := |scores| - 1;
    assert forall i :: 0 <= i < n ==> scores[..n][i] == scores[i];
    if HasRound(scores, b, g, r) && !HasRound(scores[..n], b, g, r) {
      var i :| 0 <= i < |scores| && Plays(scores[i], b, g) && 1 <= r <= |scores[i].detailedStatistics.roundScores|;
    }
  }

  /** Score i is the last one of bettor b and golfer g. */
  predicate LastScoreOf(scores: seq<Scores>, b: string, g: string, i: int) {
    0 <= i < |scores| && Plays(scores[i], b, g) && forall j :: i < j < |scores| ==> !Plays(scores[j], b, g)
  }

  /** The espn id kept for (bettor, golfer) is the one of their last score. */
  lemma {:induction false} EspnIdsLastWins(scores: seq<Scores>, b: string, g: string)
    ensures (b, g) in EspnIds(scores) <==> exists i :: 0 <= i < |scores| && Plays(scores[i], b, g)
    ensures (b, g) in EspnIds(scores) ==>
      exists i :: LastScoreOf(scores, b, g, i) && EspnIds(scores)[(b, g)] == scores[i].espnId
  {
    if |scores| > 0 {
      var n := |scores| - 1;
      EspnIdsLastWins(scores[..n], b, g);
      assert forall i :: 0 <= i < n ==> scores[..n][i] == scores[i];
      if !Plays(scores[n], b, g) && (b, g) in EspnIds(scores[..n]) {
        var i :| LastScoreOf(scores[..n], b, g, i) && EspnIds(scores[..n])[(b, g)] == scores[..n][i].espnId;
        assert LastScoreOf(scores, b, g, i);
      }
      if Plays(scores[n], b, g) {
        assert LastScoreOf(scores, b, g, n);
      }
    }
  }

  /** A bettor with no score has no golfers. */
  lemma {:induction false} GolfersOfAbsent(scores: seq<Scores>, b: string)
    requires b !in Bettors(scores)
    ensures GolfersOf(scores, b) == []
  {
    if |scores| > 0 {
      var n := |scores| - 1;
      assert Bettors(scores)[n] == scores[n].bettorName;
      assert Bettors(scores[..n]) == Bettors(scores)[..n];
      GolfersOfAbsent(scores[..n], b);
    }
  }

  /** The inner loop: round i of a score added to round number i + 1. */
  method AddScoreRounds(m0: BettorMap, bettorName: string, golferName: string, roundScores: seq<IntStat>)
    returns (m: BettorMap)
    ensures m == AddRounds(m0, bettorName, golferName, roundScores)
  {
    m := m0;
    var roundIdx := 0;
    while roundIdx < |roundScores|
      invariant 0 <= roundIdx <= |roundScores|
      invariant m == AddRounds(m0, bettorName, golferName, roundScores[..roundIdx])
    {
      var roundVal := roundIdx + 1;
      var roundScore := roundScores[roundIdx].val;
      var golfers := if bettorName in m then m[bettorName] else map[];
      var rounds := if golferName in golfers then golfers[golferName] else map[];
      var total := if roundVal in rounds then rounds[roundVal] + roundScore else roundScore;
      m := m[bettorName := golfers[golferName := rounds[roundVal := total]]];
      assert roundScores[..roundIdx + 1][..roundIdx] == roundScores[..roundIdx];
      roundIdx := roundIdx + 1;
    }
    assert roundScores[..roundIdx] == roundScores;
  }

  /** `golfers.retain(|g| seen.insert(g.clone(), ()).is_none())`. */
  method RetainFirst(golfers: seq<string>) returns (kept: seq<string>)
    ensures kept == Dedup(golfers)
  {
    kept := [];
    var seen: set<string> := {};
    var i := 0;
    while i < |golfers|
      invariant 0 <= i <= |golfers|
      invariant kept == Dedup(golfers[..i])
      invariant forall x :: x in seen <==> x in golfers[..i]
    {
      assert golfers[..i + 1][..i] == golfers[..i];
      assert golfers[..i + 1] == golfers[..i] + [golfers[i]];
      if golfers[i] !in seen {
        kept := kept + [golfers[i]];
        seen := seen + {golfers[i]};
      }
      i := i + 1;
    }
    assert golfers[..i] == golfers;
  }

  /**
   * `build_bettor_golfer_maps`: the summed round scores, the espn id of each
   * (bettor, golfer), the bettors in order of first appearance, and each
   * bettor's golfers in order of first appearance.
   */
  method BuildBettorGolferMaps(scores: seq<Scores>)
    returns (scoresMap: BettorMap, espnIdMap: map<(string, string), int>,
             bettorOrder: seq<string>, golferOrderMap: map<string, seq<string>>)
    ensures scoresMap == ScoresMap(scores)
    ensures espnIdMap == EspnIds(scores)
    ensures bettorOrder == Dedup(Bettors(scores))
    ensures forall b :: b in golferOrderMap <==> b in Bettors(scores)
    ensures forall b :: b in golferOrderMap ==> golferOrderMap[b] == Dedup(GolfersOf(scores, b))
  {
    scoresMap, espnIdMap, bettorOrder, golferOrderMap := map[], map[], [], map[];
    var i := 0;
    while i < |scores|
      invariant 0 <= i <= |scores|
      invariant scoresMap == ScoresMap(scores[..i])
      invariant espnIdMap == EspnIds(scores[..i])
      invariant bettorOrder == Dedup(Bettors(scores[..i]))
      invariant forall b :: b in golferOrderMap <==> b in Bettors(scores[..i])
      invariant forall b :: b in golferOrderMap ==> golferOrderMap[b] == GolfersOf(scores[..i], b)
    {
      var score := scores[i];
      var bettorName, golferName := score.bettorName, score.golferName;
      assert scores[..i + 1][..i] == scores[..i];
      assert Bettors(scores[..i + 1]) == Bettors(scores[..i]) + [bettorName];
      DedupCorrect(Bettors(scores[..i]));
      if bettorName !in golferOrderMap {
        GolfersOfAbsent(scores[..i], bettorName);
      }
      if bettorName !in bettorOrder {
        bettorOrder := bettorOrder + [bettorName];
      }
      var golfers := if bettorName in golferOrderMap then golferOrderMap[bettorName] else [];
      golferOrderMap := golferOrderMap[bettorName := golfers + [golferName]];
      espnIdMap := espnIdMap[(bettorName, golferName) := score.espnId];
      scoresMap := AddScoreRounds(scoresMap, bettorName, golferName, score.detailedStatistics.roundScores);
      i := i + 1;
    }
    assert scores[..i] == scores;

    golferOrderMap := RetainFirstAll(golferOrderMap);
  }

  /** The second loop of `build_bettor_golfer_maps`: every golfer list is deduplicated in place. */
  method RetainFirstAll(pushed: map<string, seq<string>>) returns (golferOrderMap: map<string, seq<string>>)
    ensures golferOrderMap.Keys == pushed.Keys
    ensures forall b :: b in pushed ==> golferOrderMap[b] == Dedup(pushed[b])
  {
    golferOrderMap := pushed;
    var todo := golferOrderMap.Keys;
    while todo != {}
      invariant todo <= pushed.Keys && golferOrderMap.Keys == pushed.Keys
      invariant forall b :: b in pushed && b !in todo ==> golferOrderMap[b] == Dedup(pushed[b])
      invariant forall b :: b in todo ==> golferOrderMap[b] == pushed[b]
      decreases todo
    {
      var b :| b in todo;
      var kept := RetainFirst(golferOrderMap[b]);
      golferOrderMap := golferOrderMap[b := kept];
      todo := todo - {b};
    }
  }

  // ----- group_by_bettor_name_and_round -----

  /** Adding a score's rounds adds exactly the pair (b, g), when it has a round. */
  lemma {:induction false} AddRoundsDomain(m: BettorMap, b: string, g: string, rs: seq<IntStat>, b': string, g': string)
    ensures (b' in AddRounds(m, b, g, rs) && g' in AddRounds(m, b, g, rs)[b']) <==>
      (b' in m && g' in m[b']) || (b' == b && g' == g && |rs| > 0)
  {
    if |rs| > 0 {
      AddRoundsDomain(m, b, g, rs[..|rs| - 1], b', g');
    }
  }

  /** The score map has an entry for (bettor, golfer) exactly when one of their scores has a round. */
  lemma {:induction false} ScoresMapDomain(scores: seq<Scores>, b: string, g: string)
    ensures (b in ScoresMap(scores) && g in ScoresMap(scores)[b]) <==> HasRound(scores, b, g, 1)
  {
    if |scores| > 0 {
      var n := |scores| - 1;
      ScoresMapDomain(scores[..n], b, g);
      AddRoundsDomain(ScoresMap(scores[..n]), scores[n].bettorName, scores[n].golferName,
        scores[n].detailedStatistics.roundScores, b, g);
      assert forall i :: 0 <= i < n ==> scores[..n][i] == scores[i];
      if HasRound(scores, b, g, 1) && !HasRound(scores[..n], b, g, 1) {
        var i :| 0 <= i < |scores| && Plays(scores[i], b, g) && 1 <= |scores[i].detailedStatistics.roundScores|;
        assert i == n;
      }
      if HasRound(scores[..n], b, g, 1) {
        var i :| 0 <= i < n && Plays(scores[..n][i], b, g) && 1 <= |scores[..n][i].detailedStatistics.roundScores|;
        assert 0 <= i < |scores| && Plays(scores[i], b, g) && 1 <= |scores[i].detailedStatistics.roundScores|;
      }
    }
  }

  /** Golfer g's round-r total in a bettor's golfer map, 0 when absent. */
  function GolferRound(gm: GolferMap, r: int): string -> int {
    g => if g in gm && r in gm[g] then gm[g][r] else 0
  }

  /** Golfer g's round-r sum over the scores of bettor b. */
  function RoundSumOf(scores: seq<Scores>, b: string, r: int): string -> int {
    g => RoundSum(scores, b, g, r)
  }

  /** The golfers of bettor b that have at least one round. */
  function GolfersWithRounds(scores: seq<Scores>, b: string): set<string> {
    var m := ScoresMap(scores);
    if b in m then m[b].Keys else {}
  }

  lemma GolfersWithRoundsMembers(scores: seq<Scores>, b: string, g: string)
    ensures g in GolfersWithRounds(scores, b) <==> HasRound(scores, b, g, 1)
  {
    ScoresMapDomain(scores, b, g);
  }

  /** Round k + 1 of a golfer's rounds, 0 when absent: what it adds under key k. */
  function RoundAt(rounds: RoundMap, k: int): int {
    if k + 1 in rounds then rounds[k + 1] else 0
  }

  /** Round numbers turned into the 0-based keys the totals are stored under. */
  function Shifted(rs: set<int>): set<int> {
    set r | r in rs :: r - 1
  }

  /** Every round number that some golfer among gs has. */
  function RoundsOfGolfers(gm: GolferMap, gs: set<string>): set<int> {
    set g, r | g in gs && g in gm && r in gm[g] :: r
  }

  lemma ShiftedMembers(rs: set<int>, k: int)
    ensures k in Shifted(rs) <==> k + 1 in rs
  {
    if k + 1 in rs {
      assert (k + 1) - 1 == k;
    }
  }

  lemma ShiftedUnion(a: set<int>, b: set<int>)
    ensures Shifted(a + b) == Shifted(a) + Shifted(b)
  {
    forall k ensures k in Shifted(a + b) <==> k in Shifted(a) + Shifted(b) {
      ShiftedMembers(a + b, k);
      ShiftedMembers(a, k);
      ShiftedMembers(b, k);
    }
  }

  lemma RoundsOfGolfersAdd(gm: GolferMap, gs: set<string>, g: string)
    requires g in gm
    ensures RoundsOfGolfers(gm, gs + {g}) == RoundsOfGolfers(gm, gs) + gm[g].Keys
  {
    forall r | r in gm[g] ensures r in RoundsOfGolfers(gm, gs + {g}) {
      assert g in gs + {g} && g in gm && r in gm[g];
    }
    forall r | r in RoundsOfGolfers(gm, gs) ensures r in RoundsOfGolfers(gm, gs + {g}) {
      var h :| h in gs && h in gm && r in gm[h];
      assert h in gs + {g};
    }
  }

  /** Round k + 1 of a golfer's rounds when it is among done, else 0. */
  function RoundAtIn(rounds: RoundMap, done: set<int>, k: int): int {
    if k + 1 in done && k + 1 in rounds then rounds[k + 1] else 0
  }

  /** Some element of a nonempty set, in whatever order the map yields it. */
  method Pick<T>(s: set<T>) returns (x: T)
    requires s != {}
    ensures x in s
  {
    x :| x in s;
  }

  /** The inner loop: one golfer's rounds added to the bettor's totals, keyed by round - 1. */
  method AddGolferRounds(acc0: map<int, int>, rounds: RoundMap) returns (acc: map<int, int>)
    ensures acc.Keys == acc0.Keys + Shifted(rounds.Keys)
    ensures forall k :: k in acc ==> acc[k] == (if k in acc0 then acc0[k] else 0) + RoundAt(rounds, k)
  {
    acc := acc0;
    var todo := rounds.Keys;
    ghost var done: set<int> := {};
    while todo != {}
      invariant done + todo == rounds.Keys && done !! todo
      invariant acc.Keys == acc0.Keys + Shifted(done)
      invariant forall k :: k in acc ==> acc[k] == (if k in acc0 then acc0[k] else 0) + RoundAtIn(rounds, done, k)
      decreases todo
    {
      var round := Pick(todo);
      var score := rounds[round];
      var key := round - 1;
      var acc' := acc[key := if key in acc then acc[key] + score else score];
      AddRoundStep(acc0, acc, rounds, done, round, acc');
      acc, done := acc', done + {round};
      todo := todo - {round};
    }
  }

  /** Adding one round's score keeps the loop invariant of AddGolferRounds. */
  lemma AddRoundStep(acc0: map<int, int>, acc: map<int, int>, rounds: RoundMap, done: set<int>, round: int, acc': map<int, int>)
    requires round in rounds && round !in done
    requires acc.Keys == acc0.Keys + Shifted(done)
    requires forall k :: k in acc ==> acc[k] == (if k in acc0 then acc0[k] else 0) + RoundAtIn(rounds, done, k)
    requires acc' == acc[round - 1 := if round - 1 in acc then acc[round - 1] + rounds[round] else rounds[round]]
    ensures acc'.Keys == acc0.Keys + Shifted(done + {round})
    ensures forall k :: k in acc' ==> acc'[k] == (if k in acc0 then acc0[k] else 0) + RoundAtIn(rounds, done + {round}, k)
  {
    var key := round - 1;
    ShiftedUnion(done, {round});
    ShiftedMembers({round}, key);
    assert Shifted({round}) == {key};
    forall k | k in acc' ensures acc'[k] == (if k in acc0 then acc0[k] else 0) + RoundAtIn(rounds, done + {round}, k) {
      if k == key {
        ShiftedMembers(done, k);
      } else {
        assert RoundAtIn(rounds, done + {round}, k) == RoundAtIn(rounds, done, k);
      }
    }
  }

  /**
   * The outer loops for one bettor: every golfer's rounds summed per round,
   * keyed by round - 1.  The golfers come in the hash map's order.
   */
  method BettorRounds(gm: GolferMap) returns (acc: map<int, int>)
    ensures acc.Keys == Shifted(RoundsOfGolfers(gm, gm.Keys))
    ensures forall k :: k in acc ==> acc[k] == SumOver(gm.Keys, GolferRound(gm, k + 1))
  {
    acc := map[];
    var todo := gm.Keys;
    ghost var done: set<string> := {};
    while todo != {}
      invariant done + todo == gm.Keys && done !! todo
      invariant acc.Keys == Shifted(RoundsOfGolfers(gm, done))
      invariant forall k :: k in acc ==> acc[k] == SumOver(done, GolferRound(gm, k + 1))
      decreases todo
    {
      var golfer :| golfer in todo;
      var acc' := AddGolferRounds(acc, gm[golfer]);
      BettorRoundsKeysStep(gm, done, golfer, acc, acc');
      BettorRoundsSumsStep(gm, done, golfer, acc, acc');
      acc := acc';
      done := done + {golfer};
      todo := todo - {golfer};
    }
  }

  /** One golfer's step keeps the key set of BettorRounds' loop invariant. */
  lemma BettorRoundsKeysStep(gm: GolferMap, done: set<string>, golfer: string, acc: map<int, int>, acc': map<int, int>)
    requires golfer in gm
    requires acc.Keys == Shifted(RoundsOfGolfers(gm, done))
    requires acc'.Keys == acc.Keys + Shifted(gm[golfer].Keys)
    ensures acc'.Keys == Shifted(RoundsOfGolfers(gm, done + {golfer}))
  {
    RoundsOfGolfersAdd(gm, done, golfer);
    ShiftedUnion(RoundsOfGolfers(gm, done), gm[golfer].Keys);
  }

  /** One golfer's step keeps the sums of BettorRounds' loop invariant. */
  lemma BettorRoundsSumsStep(gm: GolferMap, done: set<string>, golfer: string, acc: map<int, int>, acc': map<int, int>)
    requires golfer in gm && golfer !in done
    requires acc.Keys == Shifted(RoundsOfGolfers(gm, done))
    requires forall k :: k in acc ==> acc[k] == SumOver(done, GolferRound(gm, k + 1))
    requires forall k :: k in acc' ==> acc'[k] == (if k in acc then acc[k] else 0) + RoundAt(gm[golfer], k)
    ensures forall k :: k in acc' ==> acc'[k] == SumOver(done + {golfer}, GolferRound(gm, k + 1))
  {
    forall k | k in acc' ensures acc'[k] == SumOver(done + {golfer}, GolferRound(gm, k + 1)) {
      ShiftedMembers(RoundsOfGolfers(gm, done), k);
      BettorRoundsStepAt(gm, done, golfer, k, if k in acc then acc[k] else 0, acc'[k]);
    }
  }

  lemma BettorRoundsStepAt(gm: GolferMap, done: set<string>, golfer: string, k: int, before: int, after: int)
    requires golfer in gm && golfer !in done
    requires k + 1 in RoundsOfGolfers(gm, done) ==> before == SumOver(done, GolferRound(gm, k + 1))
    requires k + 1 !in RoundsOfGolfers(gm, done) ==> before == 0
    requires after == before + RoundAt(gm[golfer], k)
    ensures after == SumOver(done + {golfer}, GolferRound(gm, k + 1))
  {
    SumOverAddGolfer(gm, done, golfer, k + 1);
    if k + 1 !in RoundsOfGolfers(gm, done) {
      SumOverNoRound(gm, done, k + 1);
    }
  }

  lemma SumOverAddGolfer(gm: GolferMap, done: set<string>, golfer: string, r: int)
    requires golfer !in done
    ensures SumOver(done + {golfer}, GolferRound(gm, r)) == SumOver(done, GolferRound(gm, r)) + GolferRound(gm, r)(golfer)
  {
    SumOverRemove(done + {golfer}, GolferRound(gm, r), golfer);
    assert done + {golfer} - {golfer} == done;
  }

  lemma SumOverNoRound(gm: GolferMap, done: set<string>, r: int)
    requires r !in RoundsOfGolfers(gm, done)
    ensures SumOver(done, GolferRound(gm, r)) == 0
  {
    forall g | g in done && g in gm ensures r !in gm[g] {
    }
    SumOverZeros(done, GolferRound(gm, r));
  }

  /** Some golfer of bettor b played a round r. */
  ghost predicate PlayedRound(scores: seq<Scores>, b: string, r: int) {
    exists g :: HasRound(scores, b, g, r)
  }

  /**
   * What one summary entry promises: ascending 0-based rounds, one score
   * per round, a round listed exactly when some golfer of the bettor played
   * it, and each score the sum of that round over the bettor's golfers.
   */
  ghost predicate RoundSummaryOf(scores: seq<Scores>, e: BettorScoreByRound) {
    var b := e.bettorName;
    Ascending(e.computedRounds, IntLeq) &&
    |e.scoresAggregatedByGolfGrpByRd| == |e.computedRounds| &&
    (forall j :: 0 <= j < |e.computedRounds| ==> PlayedRound(scores, b, e.computedRounds[j] + 1)) &&
    (forall g, r :: HasRound(scores, b, g, r) ==> r - 1 in e.computedRounds) &&
    (forall j :: 0 <= j < |e.computedRounds| ==>
      e.scoresAggregatedByGolfGrpByRd[j] ==
        SumOver(GolfersWithRounds(scores, b), RoundSumOf(scores, b, e.computedRounds[j] + 1)))
  }

  /** The bettor's golfer map, read in terms of the scores. */
  lemma GolferMapMeaning(scores: seq<Scores>, b: string, gm: GolferMap, r: int)
    requires gm == if b in ScoresMap(scores) then ScoresMap(scores)[b] else map[]
    ensures r in RoundsOfGolfers(gm, gm.Keys) <==> PlayedRound(scores, b, r)
    ensures SumOver(gm.Keys, GolferRound(gm, r)) == SumOver(GolfersWithRounds(scores, b), RoundSumOf(scores, b, r))
  {
    forall g ensures (g in gm && r in gm[g]) <==> HasRound(scores, b, g, r) {
      ScoresMapAt(scores, b, g, r);
    }
    forall g | g in gm.Keys ensures GolferRound(gm, r)(g) == RoundSumOf(scores, b, r)(g) {
      ScoresMapAt(scores, b, g, r);
      if !HasRound(scores, b, g, r) {
        RoundSumWithoutRound(scores, b, g, r);
      }
    }
    SumOverCongruent(gm.Keys, GolferRound(gm, r), RoundSumOf(scores, b, r));
  }

  /** One summary entry: the bettor's rounds in ascending order and their sums. */
  method SummarizeBettor(ghost scores: seq<Scores>, scoresMap: BettorMap, bettorName: string)
    returns (e: BettorScoreByRound)
    requires scoresMap == ScoresMap(scores)
    ensures e.bettorName == bettorName && RoundSummaryOf(scores, e)
  {
    var gm := if bettorName in scoresMap then scoresMap[bettorName] else map[];
    var acc := BettorRounds(gm);
    IntLeqIsTotalOrder();
    var computedRounds := SortedKeys(acc.Keys, IntLeq);
    var newScores := seq(|computedRounds|, j requires 0 <= j < |computedRounds| => acc[computedRounds[j]]);
    e := BettorScoreByRound(bettorName, computedRounds, newScores);
    SummaryMeaning(scores, gm, acc, e);
  }

  /** The per-bettor totals, unzipped in ascending key order, read in terms of the scores. */
  lemma SummaryMeaning(scores: seq<Scores>, gm: GolferMap, acc: map<int, int>, e: BettorScoreByRound)
    requires gm == if e.bettorName in ScoresMap(scores) then ScoresMap(scores)[e.bettorName] else map[]
    requires acc.Keys == Shifted(RoundsOfGolfers(gm, gm.Keys))
    requires forall k :: k in acc ==> acc[k] == SumOver(gm.Keys, GolferRound(gm, k + 1))
    requires Ascending(e.computedRounds, IntLeq)
    requires forall x :: x in e.computedRounds <==> x in acc.Keys
    requires |e.scoresAggregatedByGolfGrpByRd| == |e.computedRounds|
    requires forall j :: 0 <= j < |e.computedRounds| ==>
      e.computedRounds[j] in acc && e.scoresAggregatedByGolfGrpByRd[j] == acc[e.computedRounds[j]]
    ensures RoundSummaryOf(scores, e)
  {
    SummaryTotals(scores, gm, acc, e);
    SummaryCoverage(scores, gm, acc, e);
  }

  lemma SummaryTotals(scores: seq<Scores>, gm: GolferMap, acc: map<int, int>, e: BettorScoreByRound)
    requires gm == if e.bettorName in ScoresMap(scores) then ScoresMap(scores)[e.bettorName] else map[]
    requires acc.Keys == Shifted(RoundsOfGolfers(gm, gm.Keys))
    requires forall k :: k in acc ==> acc[k] == SumOver(gm.Keys, GolferRound(gm, k + 1))
    requires |e.scoresAggregatedByGolfGrpByRd| == |e.computedRounds|
    requires forall j :: 0 <= j < |e.computedRounds| ==>
      e.computedRounds[j] in acc && e.scoresAggregatedByGolfGrpByRd[j] == acc[e.computedRounds[j]]
    ensures forall j :: 0 <= j < |e.computedRounds| ==> PlayedRound(scores, e.bettorName, e.computedRounds[j] + 1)
    ensures forall j :: 0 <= j < |e.computedRounds| ==>
      e.scoresAggregatedByGolfGrpByRd[j] ==
        SumOver(GolfersWithRounds(scores, e.bettorName), RoundSumOf(scores, e.bettorName, e.computedRounds[j] + 1))
  {
    forall j | 0 <= j < |e.computedRounds|
      ensures PlayedRound(scores, e.bettorName, e.computedRounds[j] + 1)
      ensures e.scoresAggregatedByGolfGrpByRd[j] ==
        SumOver(GolfersWithRounds(scores, e.bettorName), RoundSumOf(scores, e.bettorName, e.computedRounds[j] + 1))
    {
      var k := e.computedRounds[j];
      assert k in acc && e.scoresAggregatedByGolfGrpByRd[j] == acc[k];
      BettorTotalAt(scores, e.bettorName, gm, acc, k);
    }
  }

  lemma SummaryCoverage(scores: seq<Scores>, gm: GolferMap, acc: map<int, int>, e: BettorScoreByRound)
    requires gm == if e.bettorName in ScoresMap(scores) then ScoresMap(scores)[e.bettorName] else map[]
    requires acc.Keys == Shifted(RoundsOfGolfers(gm, gm.Keys))
    requires forall x :: x in e.computedRounds <==> x in acc.Keys
    ensures forall g, r :: HasRound(scores, e.bettorName, g, r) ==> r - 1 in e.computedRounds
  {
    forall g, r | HasRound(scores, e.bettorName, g, r) ensures r - 1 in e.computedRounds {
      BettorTotalPresent(scores, e.bettorName, gm, acc, g, r);
    }
  }

  lemma BettorTotalAt(scores: seq<Scores>, b: string, gm: GolferMap, acc: map<int, int>, k: int)
    requires gm == if b in ScoresMap(scores) then ScoresMap(scores)[b] else map[]
    requires acc.Keys == Shifted(RoundsOfGolfers(gm, gm.Keys))
    requires k in acc && acc[k] == SumOver(gm.Keys, GolferRound(gm, k + 1))
    ensures PlayedRound(scores, b, k + 1)
    ensures acc[k] == SumOver(GolfersWithRounds(scores, b), RoundSumOf(scores, b, k + 1))
  {
    ShiftedMembers(RoundsOfGolfers(gm, gm.Keys), k);
    GolferMapMeaning(scores, b, gm, k + 1);
  }

  lemma BettorTotalPresent(scores: seq<Scores>, b: string, gm: GolferMap, acc: map<int, int>, g: string, r: int)
    requires gm == if b in ScoresMap(scores) then ScoresMap(scores)[b] else map[]
    requires acc.Keys == Shifted(RoundsOfGolfers(gm, gm.Keys))
    requires HasRound(scores, b, g, r)
    ensures r - 1 in acc
  {
    GolferMapMeaning(scores, b, gm, r);
    ShiftedMembers(RoundsOfGolfers(gm, gm.Keys), r - 1);
  }


  /**
   * `group_by_bettor_name_and_round`: one entry per bettor, in order of
   * first appearance, each holding the bettor's per-round sums.
   */
  method GroupByBettorNameAndRound(scores: seq<Scores>) returns (summary: seq<BettorScoreByRound>)
    ensures |summary| == |Dedup(Bettors(scores))|
    ensures forall i :: 0 <= i < |summary| ==>
      summary[i].bettorName == Dedup(Bettors(scores))[i] && RoundSummaryOf(scores, summary[i])
  {
    var scoresMap, _, bettorOrder, _ := BuildBettorGolferMaps(scores);
    summary := [];
    var i := 0;
    while i < |bettorOrder|
      invariant 0 <= i <= |bettorOrder| && |summary| == i
      invariant forall k :: 0 <= k < i ==> summary[k].bettorName == bettorOrder[k] && RoundSummaryOf(scores, summary[k])
    {
      var e := SummarizeBettor(scores, scoresMap, bettorOrder[i]);
      summary := summary + [e];
      i := i + 1;
    }
  }

  // ----- group_by_bettor_golfer_round -----

  /** The (bettor, golfer) pairs of one bettor's golfer list that have rounds, in list order. */
  function GolferPairs(b: string, golfers: seq<string>, m: BettorMap): (ps: seq<(string, string)>)
    ensures forall p :: p in ps ==> p.0 == b
  {
    if |golfers| == 0 then []
    else
      var n := |golfers| - 1;
      GolferPairs(b, golfers[..n], m) + (if b in m && golfers[n] in m[b] then [(b, golfers[n])] else [])
  }

  /** The pairs of each listed bettor in turn, each with its golfers in first-appearance order. */
  function PairsFor(bettors: seq<string>, scores: seq<Scores>, m: BettorMap): seq<(string, string)> {
    if |bettors| == 0 then []
    else
      var n := |bettors| - 1;
      PairsFor(bettors[..n], scores, m) + GolferPairs(bettors[n], Dedup(GolfersOf(scores, bettors[n])), m)
  }

  /** The rows `group_by_bettor_golfer_round` emits, as (bettor, golfer) pairs. */
  function DetailedPairs(scores: seq<Scores>): seq<(string, string)> {
    PairsFor(Dedup(Bettors(scores)), scores, ScoresMap(scores))
  }

  function PairOf(d: DetailedScore): (string, string) {
    (d.bettorName, d.golferName)
  }

  function PairsOf(ds: seq<DetailedScore>): (ps: seq<(string, string)>)
    ensures |ps| == |ds| && forall k :: 0 <= k < |ds| ==> ps[k] == PairOf(ds[k])
  {
    seq(|ds|, k requires 0 <= k < |ds| => PairOf(ds[k]))
  }

  /**
   * What one row promises against the maps: its rounds are the golfer's
   * round numbers in ascending order, each score is that round's total, and
   * the espn id is the map's, or 0 when the map has none.
   */
  ghost predicate DetailFor(m: BettorMap, espnIds: map<(string, string), int>, d: DetailedScore) {
    d.bettorName in m && d.golferName in m[d.bettorName] &&
    var rm := m[d.bettorName][d.golferName];
    Ascending(d.rounds, IntLeq) &&
    (forall r :: r in rm ==> r in d.rounds) &&
    |d.scores| == |d.rounds| &&
    (forall j :: 0 <= j < |d.rounds| ==> d.rounds[j] in rm && d.scores[j] == rm[d.rounds[j]]) &&
    d.golferEspnId == (if PairOf(d) in espnIds then espnIds[PairOf(d)] else 0)
  }

  /** One row: the golfer's rounds in ascending order, unzipped, and the espn id. */
  method DetailRow(bettorName: string, golferName: string, m: BettorMap, espnIdMap: map<(string, string), int>)
    returns (d: DetailedScore)
    requires bettorName in m && golferName in m[bettorName]
    ensures d.bettorName == bettorName && d.golferName == golferName
    ensures DetailFor(m, espnIdMap, d)
  {
    var roundsMap := m[bettorName][golferName];
    IntLeqIsTotalOrder();
    var roundNumbers := SortedKeys(roundsMap.Keys, IntLeq);
    var roundScores := seq(|roundNumbers|, j requires 0 <= j < |roundNumbers| => roundsMap[roundNumbers[j]]);
    var golferEspnId := if (bettorName, golferName) in espnIdMap then espnIdMap[(bettorName, golferName)] else 0;
    d := DetailedScore(bettorName, golferName, golferEspnId, roundNumbers, roundScores);
  }

  /** The inner loop: one row per golfer of the bettor that has rounds, in list order. */
  method AppendBettorRows(detailed0: seq<DetailedScore>, bettorName: string, golfersOrdered: seq<string>,
                          m: BettorMap, espnIdMap: map<(string, string), int>)
    returns (detailed: seq<DetailedScore>)
    requires bettorName in m
    ensures PairsOf(detailed) == PairsOf(detailed0) + GolferPairs(bettorName, golfersOrdered, m)
    ensures forall k :: 0 <= k < |detailed0| ==> detailed[k] == detailed0[k]
    ensures forall k :: |detailed0| <= k < |detailed| ==> DetailFor(m, espnIdMap, detailed[k])
  {
    detailed := detailed0;
    var golfersMap := m[bettorName];
    for j := 0 to |golfersOrdered|
      invariant PairsOf(detailed) == PairsOf(detailed0) + GolferPairs(bettorName, golfersOrdered[..j], m)
      invariant forall k :: 0 <= k < |detailed0| ==> detailed[k] == detailed0[k]
      invariant forall k :: |detailed0| <= k < |detailed| ==> DetailFor(m, espnIdMap, detailed[k])
    {
      var golferName := golfersOrdered[j];
      assert golfersOrdered[..j + 1][..j] == golfersOrdered[..j];
      if golferName in golfersMap {
        var row := DetailRow(bettorName, golferName, m, espnIdMap);
        assert PairsOf(detailed + [row]) == PairsOf(detailed) + [PairOf(row)];
        detailed := detailed + [row];
      }
    }
    assert golfersOrdered[..|golfersOrdered|] == golfersOrdered;
  }

  /** The rows of one bettor: none when the bettor has no rounds at all. */
  method BettorRows(detailed0: seq<DetailedScore>, bettorName: string, golfersOrdered: seq<string>,
                    m: BettorMap, espnIdMap: map<(string, string), int>)
    returns (detailed: seq<DetailedScore>)
    requires forall k :: 0 <= k < |detailed0| ==> DetailFor(m, espnIdMap, detailed0[k])
    ensures PairsOf(detailed) == PairsOf(detailed0) + GolferPairs(bettorName, golfersOrdered, m)
    ensures forall k :: 0 <= k < |detailed| ==> DetailFor(m, espnIdMap, detailed[k])
  {
    if bettorName in m {
      detailed := AppendBettorRows(detailed0, bettorName, golfersOrdered, m, espnIdMap);
    } else {
      GolferPairsAbsent(bettorName, golfersOrdered, m);
      detailed := detailed0;
    }
  }

  /**
   * `group_by_bettor_golfer_round`: one row per (bettor, golfer) with rounds,
   * bettors in first-appearance order and each bettor's golfers in
   * first-appearance order.
   */
  method GroupByBettorGolferRound(scores: seq<Scores>) returns (detailed: seq<DetailedScore>)
    ensures PairsOf(detailed) == DetailedPairs(scores)
    ensures forall k :: 0 <= k < |detailed| ==> DetailFor(ScoresMap(scores), EspnIds(scores), detailed[k])
  {
    var scoresMap, espnIdMap, bettorOrder, golferOrderMap := BuildBettorGolferMaps(scores);
    DedupCorrect(Bettors(scores));
    assert forall i :: 0 <= i < |bettorOrder| ==> bettorOrder[i] in Bettors(scores);
    detailed := AllBettorRows(bettorOrder, golferOrderMap, scores, scoresMap, espnIdMap);
  }

  /** The rows of the bettors, in order, each with its golfers in the order the map lists them. */
  method AllBettorRows(bettors: seq<string>, golferOrderMap: map<string, seq<string>>, scores: seq<Scores>,
                       m: BettorMap, espnIdMap: map<(string, string), int>)
    returns (detailed: seq<DetailedScore>)
    requires forall i :: 0 <= i < |bettors| ==>
      bettors[i] in golferOrderMap && golferOrderMap[bettors[i]] == Dedup(GolfersOf(scores, bettors[i]))
    ensures PairsOf(detailed) == PairsFor(bettors, scores, m)
    ensures forall k :: 0 <= k < |detailed| ==> DetailFor(m, espnIdMap, detailed[k])
  {
    detailed := [];
    for i := 0 to |bettors|
      invariant PairsOf(detailed) == PairsFor(bettors[..i], scores, m)
      invariant forall k :: 0 <= k < |detailed| ==> DetailFor(m, espnIdMap, detailed[k])
    {
      assert bettors[..i + 1][..i] == bettors[..i];
      detailed := BettorRows(detailed, bettors[i], golferOrderMap[bettors[i]], m, espnIdMap);
    }
    assert bettors[..|bettors|] == bettors;
  }

  lemma {:induction false} GolferPairsAbsent(b: string, golfers: seq<string>, m: BettorMap)
    requires b !in m
    ensures GolferPairs(b, golfers, m) == []
  {
    if |golfers| > 0 {
      GolferPairsAbsent(b, golfers[..|golfers| - 1], m);
    }
  }

  /** A golfer is among a bettor's golfers exactly when some score pairs them. */
  lemma {:induction false} GolfersOfMembers(scores: seq<Scores>, b: string, g: string)
    ensures g in GolfersOf(scores, b) <==> exists i :: 0 <= i < |scores| && Plays(scores[i], b, g)
  {
    if |scores| > 0 {
      var n := |scores| - 1;
      GolfersOfMembers(scores[..n], b, g);
      assert forall i :: 0 <= i < n ==> scores[..n][i] == scores[i];
      if g in GolfersOf(scores[..n], b) {
        var i :| 0 <= i < n && Plays(scores[..n][i], b, g);
        assert Plays(scores[i], b, g);
      }
    }
  }

  lemma {:induction false} GolferPairsMembers(b: string, golfers: seq<string>, m: BettorMap, p: (string, string))
    ensures p in GolferPairs(b, golfers, m) <==> p.0 == b && p.1 in golfers && b in m && p.1 in m[b]
  {
    if |golfers| > 0 {
      var n := |golfers| - 1;
      GolferPairsMembers(b, golfers[..n], m, p);
      assert golfers == golfers[..n] + [golfers[n]];
    }
  }

  lemma {:induction false} GolferPairsDistinct(b: string, golfers: seq<string>, m: BettorMap)
    requires Distinct(golfers)
    ensures Distinct(GolferPairs(b, golfers, m))
  {
    if |golfers| > 0 {
      var n := |golfers| - 1;
      assert Distinct(golfers[..n]);
      GolferPairsDistinct(b, golfers[..n], m);
      GolferPairsMembers(b, golfers[..n], m, (b, golfers[n]));
    }
  }

  lemma {:induction false} PairsForMembers(bettors: seq<string>, scores: seq<Scores>, m: BettorMap, p: (string, string))
    ensures p in PairsFor(bettors, scores, m) <==>
      p.0 in bettors && p.1 in Dedup(GolfersOf(scores, p.0)) && p.0 in m && p.1 in m[p.0]
  {
    if |bettors| > 0 {
      var n := |bettors| - 1;
      PairsForMembers(bettors[..n], scores, m, p);
      GolferPairsMembers(bettors[n], Dedup(GolfersOf(scores, bettors[n])), m, p);
      assert bettors == bettors[..n] + [bettors[n]];
    }
  }

  lemma {:induction false} PairsForDistinct(bettors: seq<string>, scores: seq<Scores>, m: BettorMap)
    requires Distinct(bettors)
    ensures Distinct(PairsFor(bettors, scores, m))
  {
    if |bettors| > 0 {
      var n := |bettors| - 1;
      var b := bettors[n];
      assert Distinct(bettors[..n]);
      PairsForDistinct(bettors[..n], scores, m);
      DedupCorrect(GolfersOf(scores, b));
      GolferPairsDistinct(b, Dedup(GolfersOf(scores, b)), m);
      forall p | p in PairsFor(bettors[..n], scores, m) ensures p !in GolferPairs(b, Dedup(GolfersOf(scores, b)), m) {
        PairsForMembers(bettors[..n], scores, m, p);
      }
      DistinctConcat(PairsFor(bettors[..n], scores, m), GolferPairs(b, Dedup(GolfersOf(scores, b)), m));
    }
  }

  /**
   * The rows are exactly the (bettor, golfer) pairs with at least one round,
   * each once.
   */
  lemma DetailedPairsCorrect(scores: seq<Scores>)
    ensures Distinct(DetailedPairs(scores))
    ensures forall b, g :: (b, g) in DetailedPairs(scores) ==> HasRound(scores, b, g, 1)
    ensures forall b, g :: HasRound(scores, b, g, 1) ==> (b, g) in DetailedPairs(scores)
  {
    DedupCorrect(Bettors(scores));
    PairsForDistinct(Dedup(Bettors(scores)), scores, ScoresMap(scores));
    forall b, g ensures (b, g) in DetailedPairs(scores) <==> HasRound(scores, b, g, 1) {
      PairsForMembers(Dedup(Bettors(scores)), scores, ScoresMap(scores), (b, g));
      ScoresMapDomain(scores, b, g);
      GolfersOfMembers(scores, b, g);
      DedupCorrect(GolfersOf(scores, b));
      if HasRound(scores, b, g, 1) {
        var i :| 0 <= i < |scores| && Plays(scores[i], b, g) && 1 <= |scores[i].detailedStatistics.roundScores|;
        assert Bettors(scores)[i] == b;
      }
    }
  }

  /**
   * A row read in terms of the scores: its rounds are the golfer's round
   * numbers, each score sums that round over the pair's scores, and the
   * espn id is the one of the pair's last score.
   */
  lemma DetailMeaning(scores: seq<Scores>, d: DetailedScore)
    requires DetailFor(ScoresMap(scores), EspnIds(scores), d)
    ensures forall r :: r in d.rounds ==> HasRound(scores, d.bettorName, d.golferName, r)
    ensures forall r :: HasRound(scores, d.bettorName, d.golferName, r) ==> r in d.rounds
    ensures forall j :: 0 <= j < |d.rounds| ==> d.scores[j] == RoundSum(scores, d.bettorName, d.golferName, d.rounds[j])
    ensures exists i :: LastScoreOf(scores, d.bettorName, d.golferName, i) && d.golferEspnId == scores[i].espnId
  {
    var b, g := d.bettorName, d.golferName;
    forall r ensures r in d.rounds <==> HasRound(scores, b, g, r) {
      ScoresMapAt(scores, b, g, r);
    }
    forall j | 0 <= j < |d.rounds| ensures d.scores[j] == RoundSum(scores, b, g, d.rounds[j]) {
      ScoresMapAt(scores, b, g, d.rounds[j]);
    }
    ScoresMapDomain(scores, b, g);
    EspnIdsLastWins(scores, b, g);
  }
}
