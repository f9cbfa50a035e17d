# rusty-golf, modelled in Dafny

rusty-golf runs golf pools. Each bettor picks golfers for a tournament. The
server downloads hole-by-hole results from ESPN, turns them into per-golfer
statistics and ranks the bettors on a scoreboard. The browser sorts and folds
the score table. A setup REPL and an admin API write the event files and seed
the storage.

This project models the sequential logic at the core of that system and
proves what it promises. The modules follow the source files: a source file
is usually one module, `static/tablesort.js` is split into `TableSort`,
`Bubble` and `RoundToggle`, and `Wrappers`, `Text`, `Json`, `Sorting` and
`Collections` hold definitions shared by several files:

- **Client table engine** (`static/tablesort.js`, `static/scores.js`):
  - `TableSort` covers cell classification and the sort's comparison.
  - `Bubble` is the restart-after-swap bubble sort over any "out of order" test.
  - `ScoresTable` is a class over the rows that sorts them in place.
  - `RoundToggle` and `RoundView` collapse and expand the columns of one round.
  - `PlayerFilter` and `Page` handle the single-selection player filter.
- **Scoring pipeline**:
  - `ScoreModel` labels hole results.
  - `ScoreCalculator` reads ESPN's hole and round values.
  - `DataProcessor` builds statistics and merges them with golfer assignments.
  - `EspnMerge` merges fetched, stored and expected rows, and fixes the order in which sources are tried.
  - `ScoreAggregators` groups by group, by bettor and by (bettor, golfer, round).
  - `ScoreContext` computes bettor totals and the scoreboard ranking.
  - `ScoreViewUtils` and `Linescore` build the line-score tables and round totals.
  - `TimeAgo` writes the "refreshed … ago" text.
- **Parsers, validators and key codecs**:
  - `ScoreRequest` reads query parameters and the cache age.
  - `StorageKeys` builds and parses KV and R2 keys, lists events and checks auth tokens.
  - `ConfigParse` reads auth tokens and the golfers-by-bettor list.
  - `ReplParse`, `ReplComplete` and `ReplCommands` cover REPL item splitting, completion and command lookup with help.
  - `AdminNavigation` handles admin page numbers.
  - `AdminValidation` is the 14-character admin token.
  - `JsonValidation` checks the shape of the event file.
  - `EspnEvents` lists ESPN scoreboard events.
- **Small state machines and builders**:
  - `AdminLock` is the shared/exclusive test lock, as values and as a class over the lock document.
  - `MvuScore` is the score page's update step.
  - `SeedHelpers` builds seed rows with sequential ids and per-bettor groups.
  - `ReplPayload` and `OneShot` build new events.
  - `BettorsState` holds the setup tool's bettor list and its cache.

Shared modules:

- `Wrappers` provides `Option` and `Result`.
- `Text` covers trimming, splitting, joining, decimal integers and string order, as the Rust standard library defines them.
- `Json` is the part of `serde_json::Value` the code reads.
- `Sorting` is a stable sort by a total preorder, standing in for `sort_by` and `sort_by_key`.
- `Collections` covers first-occurrence dedup, sums over sets and sorted keys.

Code that works in place stays imperative:

- The source's loops are methods with loop invariants.
- Objects whose fields change are classes, with `modifies` clauses on their methods.
- Each method's `ensures` ties its result, or the object's new state, to a specification function.
- Lemmas then prove the source's promises about that function.

Everything outside the core's own logic is a parameter:

- the wall clock (`now`);
- storage reads (KV, R2, files, the database), as their outcomes;
- ESPN downloads, as their outcomes;
- RFC 3339 and tee-time parsing;
- golfer-name suggestions.

Hole labels keep the source's sign convention. `process_line_scores` labels a hole by par minus strokes, so a hole one over par is labelled Birdie. `ScoreCalculator.LabelUsesParMinusStrokes` states this as written.

## Model

| member | source | states |
|---|---|---|
| TableSort.Hour24 | static/tablesort.js:161-162 | 12am becomes hour 0, pm hours below 12 gain 12, every other hour is kept |
| TableSort.AfterAsymmetric | static/tablesort.js:92-108 | two cells are never out of order both ways, so every swap removes an inversion and the scan loop ends |
| TableSort.RowOutAsymmetric | static/tablesort.js:86-126 | the swap test on rows by one column is asymmetric in both directions |
| TableSort.SortOutcomeCorrect | static/tablesort.js:81-138 | a click leaves the data rows a permutation of the old ones with no adjacent pair out of order, and ends descending exactly when the header said "asc" or the rows were already ascending |
| TableSort.SortOutcomeKeepsSettledDesc | static/tablesort.js:109-137 | rows already in descending order stay where they are when "desc" is requested |
| TableSort.DateIsNotNumeric | static/tablesort.js:141-149 | no cell is both a date and a number, so the first two comparison branches never overlap |
| TableSort.DateNextToNonDateNeverSwaps | static/tablesort.js:93-125 | a date next to a non-date cell is never swapped, in either direction |
| TableSort.NotAfterTransitive | static/tablesort.js:93-108 | among cells of one kind (all dates, all numbers or all text) "not after" is transitive |
| TableSort.SortOutcomeSortedWhenOneKind | static/tablesort.js:81-138 | when the column holds one kind of cell the rows end fully sorted in the final direction |
| TableSort.MixedColumnCanStayUnsorted | static/tablesort.js:98-107 | ["10", "1a", "2"] has no adjacent pair out of order although "10" sorts after "2", so a mixed column can end unsorted |
| TableSort.NewDir | static/tablesort.js:67-70 | the new direction is "desc" exactly when the clicked header said "asc" |
| TableSort.MarkHeaderOnlyClicked | static/tablesort.js:72-79 | after a click only the clicked header carries a sort direction attribute and class |
| TableSort.AutoFlipLeavesAscIndicator | static/tablesort.js:78-136 | after the automatic flip of an already ascending table the header still says "asc" while the rows are descending |
| TableSort.ScoresTable.FindSwap | static/tablesort.js:84-127 | one scan returns the first row index from 2 whose row and the next are out of order, or the row count; cells are compared by their trimmed text (`Key`) |
| TableSort.ScoresTable.SwapRows | static/tablesort.js:129 | the two adjacent rows trade places and the header rows stay |
| TableSort.ScoresTable.SortPass | static/tablesort.js:82-136 | one pass of the loop: the first out-of-order adjacent pair is swapped if there is one; otherwise an untouched ascending table turns descending and any other table is done; the click's outcome is unchanged and (may-still-flip, inversions, still switching) strictly decreases |
| TableSort.ScoresTable.SortTable | static/tablesort.js:52-138 | the header rows are untouched, the header marks the clicked cell, and the data rows and final direction are the click's outcome, which the lemmas above characterise |
| TableSort.ScoresTable.constructor | static/tablesort.js:53 | the table holds the given header cells and rows |
| TableSort.IsNumeric | static/tablesort.js:141-143 | a number is a decimal literal `[+-]digits[.digits]` read exactly; DecimalHasNoSlash shows none contains '/', so with DateIsNotNumeric no cell is both a date and a number |
| TableSort.IsDate | static/tablesort.js:145-149 | a cell is a date when the `M/D H:MM` followed by am or pm pattern matches somewhere in it; FindDateHasSlash shows every date holds a '/' |
| TableSort.ParseDate | static/tablesort.js:151-173 | the instant of the first match, with month - 1 and the 12-hour conversion that Hour24 states |
| TableSort.After | static/tablesort.js:90-106 | the ascending swap test: dates by instant, numbers by value, other non-dates by lower-cased text, a date beside a non-date never; AfterAsymmetric and NotAfterTransitive state its order properties |
| TableSort.ShouldSwap | static/tablesort.js:84-125 | the ascending test for "asc" and the mirrored test for "desc"; RowOutAsymmetric and DateNextToNonDateNeverSwaps state its properties |
| TableSort.MarkHeader | static/tablesort.js:72-79 | the header keeps its length; MarkHeaderOnlyClicked states that only the clicked cell keeps a direction and a sort class |
| TableSort.SortTableById | static/tablesort.js:52-79 | a missing table gives TableNotFound; a missing header row or header cell n - 1 (n = 0 included) gives HeaderCellMissing with nothing changed; otherwise the header mark, the data rows and the direction are those of SortTable |
| TableSort.PaddedCellsCompareTrimmed | static/tablesort.js:86-106 | cells are compared after `trim()`: " 10" above "2" swaps as the numbers 10 and 2, although the untrimmed texts would not swap |
| Bubble.FirstInversionFrom | static/tablesort.js:84-127 | the index found is out of order with its successor and no earlier index from the start point is |
| Bubble.FirstInversionSettled | static/tablesort.js:128-137 | a scan finds nothing exactly when no adjacent pair is out of order |
| Bubble.SwapRemovesInversion | static/tablesort.js:128-131 | swapping an out-of-order adjacent pair removes exactly one inversion |
| Bubble.SettlePermutes | static/tablesort.js:81-138 | the restart-after-swap sort only reorders: the result is a permutation of the input |
| Bubble.SettleIsSettled | static/tablesort.js:81-138 | when the sort stops no adjacent pair is out of order |
| Bubble.SettleOfSettled | static/tablesort.js:132-137 | an already settled sequence is left as it is |
| Bubble.SettledSorted | static/tablesort.js:81-138 | when "not out of order" is transitive, a settled sequence is sorted pairwise |
| RoundToggle.Toggle | static/tablesort.js:18-41 | "none" becomes shown ("") and every other display becomes "none" |
| RoundToggle.ToggleAll | static/tablesort.js:18-25 | every element of the round is toggled, none is added or lost |
| RoundToggle.Colspan | static/tablesort.js:27-33 | the top header's colspan is "1" exactly when this toggle hid a cell, else "3" |
| RoundToggle.NextCaption | static/tablesort.js:44-48 | only "tap to expand" turns into "tap to shrink"; every other caption turns into "tap to expand" |
| RoundToggle.ToggleAllTwice | static/tablesort.js:18-25 | toggling twice restores cells that were shown or hidden |
| RoundToggle.CollapseThenExpand | static/tablesort.js:16-33 | from a fully shown round the first toggle sets colspan "1" and the second sets it back to "3" |
| RoundToggle.NextCaptionTwice | static/tablesort.js:44-48 | the caption returns to itself after two toggles exactly when it is one of the two texts |
| RoundToggle.RoundView.ToggleRound | static/tablesort.js:1-48 | the cells and sub-headers are toggled, every top header gets the colspan of the cells' toggle and the caption alternates |
| RoundToggle.RoundView.constructor | static/tablesort.js:2-14 | the view holds the round's cells, headers and caption |
| PlayerFilter.MarkButton | static/scores.js:32-33 | the button pass keeps each button's player |
| PlayerFilter.ShowChart | static/scores.js:36-44 | the chart pass keeps each chart's player |
| PlayerFilter.Clicked | static/scores.js:26-46 | a click keeps the number of elements on the page |
| PlayerFilter.ClickElsewhereChangesNothing | static/scores.js:27 | a click on anything but a player button changes nothing |
| PlayerFilter.ClickSelectsOnePlayer | static/scores.js:28-44 | exactly the clicked button is selected, a chart is visible and not hidden exactly when its player is the selected one, and other elements are untouched |
| PlayerFilter.ClickTwiceIsClickOnce | static/scores.js:26-46 | clicking the same button twice leaves the page as one click did |
| PlayerFilter.Page.Click | static/scores.js:26-46 | the page's elements become the result of the click |
| PlayerFilter.Page.constructor | static/scores.js:32 | the page holds the given elements |
| ScoreModel.Offset | core/src/model/score.rs:35-52 | each label stands for a par difference between -5 and 10 |
| ScoreModel.FromI32 | core/src/model/score.rs:56-75 | a difference in -5..10 gets the label standing for it; 0 and every value outside -5..10 get Par |
| ScoreModel.FromI32Offset | core/src/model/score.rs:56-75 | every label is produced from its own difference, so the mapping is onto the labels |
| ScoreModel.FromI32Injective | core/src/model/score.rs:56-75 | on -5..10 different differences get different labels |
| ScoreCalculator.TryI32 | src/controller/espn/processing/score_calculator.rs:19 | the conversion succeeds exactly for values in the i32 range and keeps them |
| ScoreCalculator.LineScores | src/controller/espn/processing/score_calculator.rs:5-36 | one line score per hole element |
| ScoreCalculator.LineScoresAt | src/controller/espn/processing/score_calculator.rs:8-32 | entry k is built from hole element k, in order |
| ScoreCalculator.ProcessLineScores | src/controller/espn/processing/score_calculator.rs:5-36 | the loop pushes exactly the line scores of the hole elements, in order |
| ScoreCalculator.LineScoreOfFields | src/controller/espn/processing/score_calculator.rs:9-31 | the hole is the 1-based position, the round is the round index, score and par are kept when they fit an i32, and the label comes from par minus strokes (Par when that is not an i32) |
| ScoreCalculator.MissingFieldsAreZero | src/controller/espn/processing/score_calculator.rs:12-17 | a hole without par or displayValue counts as par 0 and score 0 |
| ScoreCalculator.LabelUsesParMinusStrokes | src/controller/espn/processing/score_calculator.rs:19-23 | a hole one over par is labelled Birdie and one under par Bogey, because the difference is par minus strokes |
| ScoreCalculator.ParFourFiveStrokes | src/controller/espn/processing/score_calculator.rs:9-17 | a hole element whose `par` is 4 and whose `displayValue` is "5" reads as par 4 and 5 strokes |
| ScoreCalculator.OverParExample | src/controller/espn/processing/score_calculator.rs:9-31 | every hole element whose `par` is 4 and whose `displayValue` is "5" becomes, as the first hole of the first round, the line score with score 5, par 4 and the label Birdie |
| ScoreCalculator.RoundScore | src/controller/espn/processing/score_calculator.rs:39-45 | a round score always fits an i32 |
| ScoreCalculator.RoundScoreReadsIntegers | src/controller/espn/processing/score_calculator.rs:40-43 | every i32 reads back from its own spelling, with or without a leading '+' |
| ScoreCalculator.RoundScoreExamples | src/controller/espn/processing/score_calculator.rs:39-45 | "+3" gives 3, "-2" gives -2 and "E" gives 0 |
| ScoreCalculator.TotalScore | src/controller/espn/processing/score_calculator.rs:48-50 | the total of no rounds is 0 and each further round adds its value |
| ScoreCalculator.TotalScoreAppend | src/controller/espn/processing/score_calculator.rs:48-50 | the total of two runs of rounds is the sum of their totals |
| ScoreCalculator.LineScoreOf | src/controller/espn/processing/score_calculator.rs:9-31 | one hole's line score; LineScoreOfFields, MissingFieldsAreZero and OverParExample state its fields |
| DataProcessor.RoundInputOf | src/controller/espn/processing/data_processor.rs:31-51 | a round contributes one line score per hole element |
| DataProcessor.Inputs | src/controller/espn/processing/data_processor.rs:31 | one round input per round |
| DataProcessor.ProcessJsonToStatistics | src/controller/espn/processing/data_processor.rs:9-64 | one statistic per response, in order, for the eup id at the same position |
| DataProcessor.ProcessResponse | src/controller/espn/processing/data_processor.rs:16-60 | the outer loop body builds the statistic of one response |
| DataProcessor.ProcessRound | src/controller/espn/processing/data_processor.rs:32-56 | the inner loop body pushes round i onto each list of the statistic |
| DataProcessor.AccumulateRounds | src/controller/espn/processing/data_processor.rs:31-57 | the round loop leaves exactly the statistic the rounds fold to, one round at a time, as the lemmas below characterise |
| DataProcessor.AccumulateLengths | src/controller/espn/processing/data_processor.rs:31-57 | one entry per round in rounds, round scores and holes completed, at most one tee time per round, and one line score per hole element |
| DataProcessor.AllTeeTimesKept | src/controller/espn/processing/data_processor.rs:48-51 | when every tee time parses there is one per round |
| DataProcessor.AccumulateAt | src/controller/espn/processing/data_processor.rs:43-56 | entry i holds round number i, that round's score and the number of line scores in rounds 0..i |
| DataProcessor.HolesCompletedNonDecreasing | src/controller/espn/processing/data_processor.rs:53-56 | holes completed never decreases from one round to a later one while the count fits an i32 |
| DataProcessor.StatisticOfCorrect | src/controller/espn/processing/data_processor.rs:15-60 | a response's statistic carries its eup id, one entry per round in each per-round list, round i's score from its displayValue, and a total equal to the sum of its round scores |
| DataProcessor.FindByEupIdFinds | src/controller/espn/processing/data_processor.rs:76-78 | the search succeeds exactly when some golfer has the id, and returns the first such golfer |
| DataProcessor.GroupThenEupIsPreorder | src/controller/espn/processing/data_processor.rs:102-108 | ordering by group, then eup id, is a total preorder |
| DataProcessor.JoinedCorrect | src/controller/espn/processing/data_processor.rs:73-98 | the join fails exactly when some statistic's eup id has no golfer and names the first one; otherwise entry i merges statistic i with the first golfer carrying its id |
| DataProcessor.MergeStatisticsWithScoresCorrect | src/controller/espn/processing/data_processor.rs:69-111 | the merge fails exactly when some statistic has no golfer; on success there is one record per statistic, ordered by (group, eup id), a permutation of the joined records that keeps their order among ties |
| DataProcessor.MergeStatisticsWithScores | src/controller/espn/processing/data_processor.rs:69-111 | the join then the sort by (group, eup id); MergeStatisticsWithScoresCorrect states its error and its sorted, permuted result |
| ScoreAggregators.GroupKey | src/controller/score/score_aggregators.rs:14 | a group number becomes a key in the usize range; a non-negative group is kept and a negative one wraps around |
| ScoreAggregators.InGroupMembers | src/controller/score/score_aggregators.rs:12-17 | a group holds exactly the scores whose group maps to its key |
| ScoreAggregators.GroupByScores | src/controller/score/score_aggregators.rs:9-20 | one non-empty group per key that occurs, keys strictly ascending, each group holding exactly its key's scores in input order, and every score inside the group of its key |
| ScoreAggregators.SortScoresCorrect | rusty-golf-core/src/score/sort_utils.rs:6-14 | sorting the map's entries by key gives exactly the map's entries with keys strictly ascending |
| ScoreAggregators.GroupsPartition | src/controller/score/score_aggregators.rs:9-20 | every score belongs to exactly one group: the one of its own key |
| ScoreAggregators.Bettors | src/controller/score/score_aggregators.rs:36 | the bettor names of the scores, one per score, in order |
| ScoreAggregators.AddRoundsAt | src/controller/score/score_aggregators.rs:50-61 | adding a score's rounds adds round i under number i + 1 to its own (bettor, golfer) and touches nothing else |
| ScoreAggregators.RoundSumWithoutRound | src/controller/score/score_aggregators.rs:50-61 | without any round r the round-r sum is zero |
| ScoreAggregators.ScoresMapAt | src/controller/score/score_aggregators.rs:35-63 | the score map holds round r of a (bettor, golfer) exactly when one of their scores has a round r, and then holds the sum of those rounds: round keys are index + 1 and duplicates are summed |
| ScoreAggregators.EspnIdsLastWins | src/controller/score/score_aggregators.rs:48 | the espn id kept for a (bettor, golfer) exists exactly when the pair occurs and is the one of their last score |
| ScoreAggregators.GolfersOfAbsent | src/controller/score/score_aggregators.rs:43-46 | a bettor with no score has no golfers |
| ScoreAggregators.AddScoreRounds | src/controller/score/score_aggregators.rs:50-62 | the inner loop adds round i of a score under round number i + 1 |
| ScoreAggregators.RetainFirst | src/controller/score/score_aggregators.rs:66-67 | the retain keeps the first occurrence of each golfer, in order |
| ScoreAggregators.BuildBettorGolferMaps | src/controller/score/score_aggregators.rs:29-71 | the summed round scores, the espn id of each pair, the bettors once each in order of first appearance, and each bettor's golfers once each in order of first appearance |
| ScoreAggregators.RetainFirstAll | src/controller/score/score_aggregators.rs:65-68 | every bettor keeps its entry and every golfer list is deduplicated keeping first occurrences |
| ScoreAggregators.AddRoundsDomain | src/controller/score/score_aggregators.rs:54-61 | adding a score's rounds creates an entry for exactly its own (bettor, golfer), when the score has a round |
| ScoreAggregators.ScoresMapDomain | src/controller/score/score_aggregators.rs:35-63 | the score map has an entry for a (bettor, golfer) exactly when one of their scores has a round |
| ScoreAggregators.Pick | src/controller/score/score_aggregators.rs:83-84 | the element the map's iteration yields next is one not yet visited |
| ScoreAggregators.AddGolferRounds | src/controller/score/score_aggregators.rs:84-88 | one golfer's rounds are added to the bettor's totals under key round - 1; other keys keep their totals |
| ScoreAggregators.BettorRounds | src/controller/score/score_aggregators.rs:81-90 | a bettor's totals have a key round - 1 for every round some golfer has, holding the sum of that round over all the bettor's golfers |
| ScoreAggregators.GolferMapMeaning | src/controller/score/score_aggregators.rs:82-90 | the bettor's golfer map has a round exactly when some golfer of the bettor played it, and sums it over the golfers with rounds |
| ScoreAggregators.SummarizeBettor | src/controller/score/score_aggregators.rs:80-99 | one summary entry: ascending 0-based rounds, one score per round, a round listed exactly when some golfer of the bettor played it, and each score the sum of that round over the bettor's golfers |
| ScoreAggregators.SummaryMeaning | src/controller/score/score_aggregators.rs:92-99 | the totals, unzipped in ascending key order, form a summary entry as described for SummarizeBettor |
| ScoreAggregators.GroupByBettorNameAndRound | src/controller/score/score_aggregators.rs:73-103 | one entry per bettor in order of first appearance, each a summary of the bettor's rounds as described for SummarizeBettor |
| ScoreAggregators.GolferPairs | src/controller/score/score_aggregators.rs:117-118 | the pairs emitted for one bettor all carry that bettor |
| ScoreAggregators.PairsOf | src/controller/score/score_aggregators.rs:131-137 | the (bettor, golfer) pair of each row, in order |
| ScoreAggregators.DetailRow | src/controller/score/score_aggregators.rs:119-137 | one row: the golfer's round numbers ascending, each with its total, and the pair's espn id or 0 |
| ScoreAggregators.AppendBettorRows | src/controller/score/score_aggregators.rs:117-139 | earlier rows are kept and one row is appended per golfer of the list that has rounds, in list order |
| ScoreAggregators.BettorRows | src/controller/score/score_aggregators.rs:115-140 | a bettor without rounds adds no rows; otherwise the rows of its golfer list are appended |
| ScoreAggregators.AllBettorRows | src/controller/score/score_aggregators.rs:114-141 | the nested loops push exactly one row per (bettor, golfer) pair, bettors in the given order and each bettor's golfers in first-appearance order, each row as described for DetailRow |
| ScoreAggregators.GroupByBettorGolferRound | src/controller/score/score_aggregators.rs:105-144 | the rows are the pairs of each bettor in first-appearance order with their golfers in first-appearance order, each row as described for DetailRow |
| ScoreAggregators.GolfersOfMembers | src/controller/score/score_aggregators.rs:43-46 | a golfer is among a bettor's golfers exactly when some score pairs them |
| ScoreAggregators.GolferPairsMembers | src/controller/score/score_aggregators.rs:117-118 | a pair is emitted for a bettor exactly when its golfer is listed and has rounds |
| ScoreAggregators.PairsForDistinct | src/controller/score/score_aggregators.rs:114-140 | distinct bettors give distinct pairs |
| ScoreAggregators.DetailedPairsCorrect | src/controller/score/score_aggregators.rs:105-144 | the rows are exactly the (bettor, golfer) pairs with at least one round, each once |
| ScoreAggregators.DetailMeaning | src/controller/score/score_aggregators.rs:119-137 | a row's rounds are exactly the golfer's round numbers, each score sums that round over the pair's scores, and the espn id is the one of the pair's last score |
| ScoreContext.ScoreDataFromScoresWithCache | core/src/score/context.rs:22-69 | the scoreboard has one line per bettor with that bettor's total, strictly ranked by (total, name), each holding its index and the title for it; the rows, the refresh source and the cache flag are passed through and the refresh time is formatted as time ago |
| ScoreContext.AssignPositions | core/src/score/context.rs:49-59 | each line gets its own index as position and the title for it, keeping name and total |
| ScoreContext.PositionedScoreboard | core/src/score/context.rs:49-59 | filling in positions turns the ranked lines into the scoreboard |
| ScoreContext.ScoreDataFromScores | core/src/score/context.rs:16-20 | the same scoreboard, with a cache hit exactly when the rows came from the database |
| ScoreContext.BettorTotals | core/src/score/context.rs:27-31 | the totals map has one entry per bettor, holding the sum of total_score over that bettor's golfers |
| ScoreContext.BettorTotalAbsent | core/src/score/context.rs:27-31 | a bettor without golfers totals zero |
| ScoreContext.Entries | core/src/score/context.rs:33-41 | the totals map drained into lines: one line per bettor, distinct, each carrying the bettor's total |
| ScoreContext.RankLeqIsTotalPreorder | core/src/score/context.rs:43-47 | the comparator (total, then name) is a total preorder |
| ScoreContext.SortedEntries | core/src/score/context.rs:43-47 | the sorted lines number one per bettor and are strictly ranked by (total, name) |
| ScoreContext.ScoreboardUnique | core/src/score/context.rs:33-59 | the scoreboard does not depend on the order in which the totals map yields its bettors |
| ScoreContext.NameRankIsTotalOrder | core/src/score/context.rs:43-47 | for fixed rows, ranking bettor names by (total, name) is a total order |
| ScoreContext.BettorTotalsAddUp | core/src/score/context.rs:27-31 | the bettor totals add up to the total of all golfers: nothing is lost or counted twice |
| ScoreContext.OtherTotalsUnchanged | core/src/score/context.rs:28-31 | adding a golfer row leaves every other bettor's total unchanged |
| ScoreContext.PositionNamesDistinct | core/src/score/context.rs:51-58 | the first five places have titles of their own and every later place is "WORST OF THE WORST" |
| ScoreContext.PositionName | core/src/score/context.rs:50-57 | the titles of places 0 to 4, then "WORST OF THE WORST"; PositionNamesDistinct states that the first five differ from each other and from every later place |
| TimeAgo.FormatTimeAgo | src/model/utils.rs:4-57 | from a year on, exactly one year reads "1 year" and anything more is a fraction of years; from a month on it is a fraction of months; below a month the text is an exact count |
| TimeAgo.FitsUnique | src/model/utils.rs:24-56 | below a month exactly one unit applies, because the thresholds are tried in descending order |
| TimeAgo.BelowMonthCountsWholeUnits | src/model/utils.rs:24-56 | below a month the text counts whole units of the largest unit reached, at least one of them for every unit but seconds, singular exactly when the count is one |
| TimeAgo.ElevenDaysIsOneWeek | src/model/utils.rs:24-30 | eleven days read "1 week" |
| TimeAgo.ZeroSeconds | src/model/utils.rs:52-56 | zero seconds read "0 seconds", in the plural |
| TimeAgo.TakeACharOff | src/model/utils.rs:59-64 | the last character is dropped and the rest kept; an empty string stays empty |
| TimeAgo.TakeACharOffUndoesPush | src/model/utils.rs:59-64 | taking a character off undoes appending one |
| EspnMerge.LastWith | rusty-golf-core/src/espn/mod.rs:99-105 | the row found carries the id and is among the rows; nothing is found exactly when no row carries the id |
| EspnMerge.ByIdIsLastWith | rusty-golf-core/src/espn/mod.rs:99-105 | collecting the rows into a map keeps, for every eup id, the last row with that id |
| EspnMerge.MergeScoresForEvent | rusty-golf-core/src/espn/mod.rs:94-117 | one row per expected golfer, with the expected golfer's eup id, in the expected order |
| EspnMerge.ByIdKeys | rusty-golf-core/src/espn/mod.rs:99-105 | every row of the map is stored under its own eup id |
| EspnMerge.MergePrefersFetchedThenExisting | rusty-golf-core/src/espn/mod.rs:107-116 | each merged row is the last fetched row with the golfer's id, else the last stored one, else the expected row |
| EspnMerge.MergeWithNothingIsExpected | rusty-golf-core/src/espn/mod.rs:107-116 | with nothing fetched and nothing stored the expected rows come back unchanged |
| EspnMerge.FetchScoresFromEspn | rusty-golf-core/src/espn/mod.rs:51-92 | rows that are stored are merged over all the expected golfers; FetchSuccessMerges, CacheHitSkipsFetch and FetchErrorOrder state the outcome on each path |
| EspnMerge.CacheHitSkipsFetch | rusty-golf-core/src/espn/mod.rs:60-70 | a usable cache entry is returned whatever ESPN, the database or the fallback would give |
| EspnMerge.FetchErrorOrder | rusty-golf-core/src/espn/mod.rs:72-90 | when ESPN fails the stored rows are returned first, then the fallback rows are merged, a failing fallback returns its own error, and the download's error is returned when there is neither |
| EspnMerge.FetchSuccessMerges | rusty-golf-core/src/espn/mod.rs:51-92 | when the cache is off or empty and ESPN answers, the outcome is to store the fetched rows merged over the stored ones, whatever the error-path read and fallback give; each row is the last fetched row with its eup id, else the last stored one, else the expected row |
| EspnMerge.FetchFailsOnlyAsLastResort | rusty-golf-core/src/espn/mod.rs:60-84 | the fetch fails only on a failed cache read or when ESPN, the stored read and the fallback all give nothing |
| EspnMerge.ById | rusty-golf-core/src/espn/mod.rs:99-105 | the rows keyed by eup id, a later row replacing an earlier one; ByIdIsLastWith and ByIdKeys state this |
| StorageKeys.ParseEventId | serverless/src/storage_helpers.rs:13-21 | an id comes back only from a key that starts with "event:" and ends with the suffix; it is the i32 spelled between them |
| StorageKeys.KvKeysHaveEventPrefix | serverless/src/storage/storage_kv.rs:19-49 | every KV key of an event starts with "event:{id}:", and so with the test-lock prefix |
| StorageKeys.EventKeyPrefix | serverless/src/storage/storage_kv.rs:19-45 | a key of one part of an event starts with "event:{id}:" |
| StorageKeys.EventKeyInjective | serverless/src/storage/storage_kv.rs:19-45 | keys of the same part for different events differ |
| StorageKeys.KvKeyBuildersInjective | serverless/src/storage/storage_kv.rs:19-45 | each KV key builder is injective in the event id |
| StorageKeys.EventKeyRoundTrip | serverless/src/storage_helpers.rs:13-21 | the event id reads back from the key of any part, given ":" and that part as the suffix |
| StorageKeys.DetailsKeyRoundTrip | serverless/src/storage/storage_kv.rs:19-21 | details keys round-trip through parse_event_id with ":details" |
| StorageKeys.R2KeysPerEvent | serverless/src/storage/storage_kv.rs:11-17 | the R2 object keys differ per event and never start with "event:" |
| StorageKeys.ParseEventIdOverlap | serverless/src/storage_helpers.rs:18-20 | when "event:" and the suffix overlap in the key there is no id |
| StorageKeys.ListEventListings | serverless/src/storage/storage_kv.rs:165-183 | a failed key listing returns its error; otherwise the first failing document read is the error, or else the result is the listings of the details keys, stably sorted by event id |
| StorageKeys.PrefixErrorPersists | serverless/src/storage/storage_kv.rs:173 | once a read fails, the whole listing fails with that error |
| StorageKeys.ListingsFromDetailsKeys | serverless/src/storage/storage_kv.rs:168-180 | every listing comes from a details key of the list, with the id parsed from it |
| StorageKeys.ListingSortedPermutation | serverless/src/storage/storage_kv.rs:181 | the listing is ordered by event id and holds exactly the listings of the details keys |
| StorageKeys.AuthTokenValid | serverless/src/storage/storage_kv.rs:185-200 | a failed key listing returns its error; otherwise true exactly when some ":auth_tokens" document that can be read lists the token, with unreadable documents skipped |
| StorageKeys.ScoresKey | serverless/src/storage/storage_kv.rs:11-13 | "events/{id}/scores.json"; R2KeysPerEvent states it differs per event and never starts with "event:" |
| StorageKeys.EspnCacheKey | serverless/src/storage/storage_kv.rs:15-17 | "cache/espn/{id}.json"; R2KeysPerEvent states it differs per event and never starts with "event:" |
| StorageKeys.EventKey | serverless/src/storage/storage_kv.rs:19-45 | "event:{id}:{part}", the shape every KV key builder shares; EventKeyPrefix, EventKeyInjective and EventKeyRoundTrip state its prefix, injectivity and round trip |
| StorageKeys.KvEventDetailsKey | serverless/src/storage/storage_kv.rs:19-21 | "event:{id}:details"; DetailsKeyRoundTrip and KvKeyBuildersInjective state its round trip and injectivity |
| StorageKeys.KvGolfersKey | serverless/src/storage/storage_kv.rs:23-25 | "event:{id}:golfers"; KvKeysHaveEventPrefix and KvKeyBuildersInjective state its prefix and injectivity |
| StorageKeys.KvPlayerFactorsKey | serverless/src/storage/storage_kv.rs:27-29 | "event:{id}:player_factors"; KvKeysHaveEventPrefix and KvKeyBuildersInjective state its prefix and injectivity |
| StorageKeys.KvLastRefreshKey | serverless/src/storage/storage_kv.rs:31-33 | "event:{id}:last_refresh"; KvKeysHaveEventPrefix and KvKeyBuildersInjective state its prefix and injectivity |
| StorageKeys.KvSeededAtKey | serverless/src/storage/storage_kv.rs:35-37 | "event:{id}:{suffix}:seeded_at"; KvKeysHaveEventPrefix and KvKeyBuildersInjective state its prefix and injectivity |
| StorageKeys.KvForceEspnFailKey | serverless/src/storage/storage_kv.rs:39-41 | "event:{id}:force_espn_fail"; KvKeysHaveEventPrefix and KvKeyBuildersInjective state its prefix and injectivity |
| StorageKeys.KvTestLockKey | serverless/src/storage/storage_kv.rs:43-45 | "event:{id}:test_lock"; KvKeysHaveEventPrefix and KvKeyBuildersInjective state its prefix and injectivity |
| StorageKeys.KvTestLockPrefix | serverless/src/storage/storage_kv.rs:47-49 | "event:"; KvKeysHaveEventPrefix states that every KV key of an event starts with it |
| SeedHelpers.AsI32 | serverless/src/storage_admin_seed_helpers.rs:13 | `as i32` keeps the value when it fits and otherwise wraps it modulo 2^32 into the i32 range |
| SeedHelpers.ValidateSeedRequest | serverless/src/storage_admin_seed_helpers.rs:10-25 | an error exactly when the request's event id differs from the event's id cast to i32 or there is no data-to-fill block (a mismatch reports both ids); otherwise the first block |
| SeedHelpers.BuildGolfersOut | serverless/src/storage_admin_seed_helpers.rs:27-67 | an error exactly when some entry's golfer is not among the golfers; otherwise one assignment per entry, in order, with eup id i + 1, the golfer's name, and a group equal to that bettor's count of entries so far |
| SeedHelpers.GroupsCountUp | serverless/src/storage_admin_seed_helpers.rs:36-57 | within one bettor the groups start at 1 and strictly increase in entry order |
| SeedHelpers.CountMonotone | serverless/src/storage_admin_seed_helpers.rs:40-41 | a bettor's count never decreases along the entries |
| SeedHelpers.CountBound | serverless/src/storage_admin_seed_helpers.rs:36-57 | a bettor's group never exceeds the number of entries so far |
| SeedHelpers.BuildPlayerFactors | serverless/src/storage_admin_seed_helpers.rs:69-83 | there are never more factors than entries |
| SeedHelpers.PlayerFactorsAppend | serverless/src/storage_admin_seed_helpers.rs:69-83 | the factors of two runs of entries are the factors of each, in order |
| SeedHelpers.PlayerFactorOfOne | serverless/src/storage_admin_seed_helpers.rs:73-81 | an entry gets a factor exactly when its step factor is a number, with its golfer id, bettor and value |
| AdminLock.Pruned | serverless/src/storage_admin_lock.rs:30-42 | pruning keeps exactly the shared holders whose expiry parses and lies after now, and keeps the exclusive holder exactly when it does too |
| AdminLock.ExpiryFor | serverless/src/storage_admin_lock.rs:49 | a new holder expires at now + ttl when ttl is at least 1, and at now + 1 otherwise, so always after now |
| AdminLock.SharedAcquire | serverless/src/storage_admin_lock.rs:106-121 | a shared lock fails with (false, false) and no change exactly when there is an exclusive holder; otherwise the new document is the old shared holders with the token inserted at the new expiry and still no exclusive holder, and it is the first exactly when no shared holder existed |
| AdminLock.ExclusiveAcquire | serverless/src/storage_admin_lock.rs:123-136 | an exclusive lock is granted with (true, true) exactly when there are no holders, making the token the only holder; otherwise (false, false) and no change |
| AdminLock.Unlocked | serverless/src/storage_admin_lock.rs:74-87 | the token holds no lock afterwards; the remaining shared holders are exactly the other live ones, with their expiries; another token's exclusive hold is kept; the result is true exactly when no holder remains |
| AdminLock.LockKeepsNeverBoth | serverless/src/storage_admin_lock.rs:30-60 | locking keeps "never an exclusive holder beside shared ones", and a granted lock establishes it whatever the document held |
| AdminLock.UnlockKeepsNeverBoth | serverless/src/storage_admin_lock.rs:74-87 | unlocking keeps the same invariant |
| AdminLock.ForceAlwaysAcquires | serverless/src/storage_admin_lock.rs:44-47 | a forced lock is always granted and reported as the first |
| AdminLock.NewHolderSurvivesPrune | serverless/src/storage_admin_lock.rs:30-49 | a holder just granted is still live at the time of the grant |
| AdminLock.ExpiredExclusiveDoesNotBlock | serverless/src/storage_admin_lock.rs:35-42 | an expired exclusive holder does not block a new lock |
| AdminLock.TestLockDoc.Empty | serverless/src/storage_admin_lock.rs:23-26 | the document used when none is stored has no holders |
| AdminLock.TestLockDoc.PruneExpired | serverless/src/storage_admin_lock.rs:30-42 | the document becomes its pruned state |
| AdminLock.TestLockDoc.AcquireSharedLock | serverless/src/storage_admin_lock.rs:106-121 | the flags and the new document are those of a shared acquire |
| AdminLock.TestLockDoc.AcquireExclusiveLock | serverless/src/storage_admin_lock.rs:123-136 | the flags and the new document are those of an exclusive acquire |
| AdminLock.TestLockDoc.AdminTestLock | serverless/src/storage_admin_lock.rs:12-61 | the flags and the new document are those of pruning, clearing when forced, then acquiring in the mode |
| AdminLock.TestLockDoc.AdminTestUnlock | serverless/src/storage_admin_lock.rs:74-93 | the result and the new document are those of unlocking |
| AdminLock.AdminTestUnlockStored | serverless/src/storage_admin_lock.rs:63-94 | a missing document yields true; otherwise the stored document is unlocked |
| AdminLock.Lock | serverless/src/storage_admin_lock.rs:12-60 | prune, clear when forced, then acquire in the given mode; LockKeepsNeverBoth, ForceAlwaysAcquires, NewHolderSurvivesPrune and ExpiredExclusiveDoesNotBlock state its properties, and TestLockDoc.AdminTestLock is proved equal to it |
| ScoreRequest.Flag | core/src/score/request.rs:32-41 | a flag is true exactly when its value is "1" or "true"; "0", a missing value and anything else give false |
| ScoreRequest.ParseScoreRequest | core/src/score/request.rs:20-49 | an error exactly when event or yr is missing or not an i32 once trimmed, with the event's message first; otherwise both numbers, no cache exactly when cache is "0", and the json and expanded flags |
| ScoreRequest.QueryRoundTrip | core/src/score/request.rs:20-49 | a request written as a query reads back as itself |
| ScoreRequest.QueryLookups | core/src/score/request.rs:23-41 | the query written for a request holds each of its values under the key the parser reads |
| ScoreRequest.NumberParam | core/src/score/request.rs:23-30 | a parameter holding an i32 written out reads back as that number |
| ScoreRequest.NumberIsTrimmed | core/src/score/request.rs:25-29 | a written number has no white space to trim |
| ScoreRequest.PaddingIgnored | core/src/score/request.rs:25-29 | white space around a number parameter is ignored |
| ScoreRequest.CacheMaxAgeForEvent | core/src/score/request.rs:55-77 | details that cannot be read give 0; -1 exactly when the details have an end date that parses and lies before now; otherwise 300 when refreshed from ESPN, else 0 |
| ScoreRequest.UnparsableEndDateIgnored | core/src/score/request.rs:64-71 | an end date that does not parse is treated as no end date |
| ScoreRequest.DecodeScoreRequest | core/src/score/request.rs:83-91 | an error exactly when the request does not parse; otherwise the request with its event's cache age |
| ConfigParse.ParseAuthTokens | setup/src/config/parse.rs:4-23 | the tokens are the comma-separated pieces, trimmed, with empty ones dropped; an empty list is an error, as is the first token shorter than 8 characters or holding a control character, with the message for that check |
| ConfigParse.CheckTokens | setup/src/config/parse.rs:14-21 | no error exactly when every token is valid; otherwise the error of the first invalid token |
| ConfigParse.TokensShape | setup/src/config/parse.rs:5-10 | every token is non-empty, trimmed and free of commas |
| ConfigParse.TokensRoundTrip | setup/src/config/parse.rs:5-10 | clean tokens written out comma-separated read back as themselves |
| ConfigParse.ParseGolfersByBettor | setup/src/config/parse.rs:25-32 | a decoding error or an empty list is an error ("golfers-by-bettor list is empty" for the latter); otherwise the decoded list |
| ConfigParse.Tokens | setup/src/config/parse.rs:5-10 | the comma-separated pieces, trimmed, empty ones dropped; TokensShape and TokensRoundTrip state their shape and round trip |
| ConfigParse.FirstInvalid | setup/src/config/parse.rs:14-21 | token i is invalid and every earlier token valid; CheckTokens reports exactly that token's error |
| ReplParse.CommasToSpaces | rusty-golf-setup/src/repl/parse.rs:2 | every comma becomes a space and every other character is kept |
| ReplParse.ItemsAreClean | rusty-golf-setup/src/repl/parse.rs:1-8 | no item is empty, and none holds a comma or white space |
| ReplParse.SplitJoinedItems | rusty-golf-setup/src/repl/parse.rs:1-8 | clean items joined with spaces split back into the same items |
| ReplParse.SplitItemsIdempotent | rusty-golf-setup/src/repl/parse.rs:1-8 | splitting the items joined with spaces gives the same items |
| ReplParse.SeparatorsOnly | rusty-golf-setup/src/repl/parse.rs:1-8 | input made only of commas and white space has no items |
| ReplParse.SplitItems | rusty-golf-setup/src/repl/parse.rs:1-8 | commas become spaces and the items are the non-empty white-space-separated runs; ItemsAreClean, SplitJoinedItems, SplitItemsIdempotent and SeparatorsOnly state its meaning |
| ReplComplete.RFind | rusty-golf-setup/src/repl/complete.rs:39 | the index found is the last separator, and there is none exactly when no character is a separator |
| ReplComplete.TokenStartIndex | rusty-golf-setup/src/repl/complete.rs:37-41 | the token starts just after the last separator, or at 0, never past the end |
| ReplComplete.TokenIsTail | rusty-golf-setup/src/repl/complete.rs:30-41 | the current token is exactly the text from the token start to the end, and holds no separator |
| ReplComplete.Candidates | rusty-golf-setup/src/repl/complete.rs:14-22 | the candidates are exactly the ids that are not selected and start with the token, each one an id |
| ReplComplete.CandidatesAppend | rusty-golf-setup/src/repl/complete.rs:14-22 | filtering keeps the ids' order |
| ReplComplete.CompleteItemsPrompt | rusty-golf-setup/src/repl/complete.rs:5-28 | the replacement starts where the current token starts (at pos when the token is empty), and the candidates are the ids not yet typed that start with the token, in ids order |
| ReplComplete.TypedItemsNotOffered | rusty-golf-setup/src/repl/complete.rs:11-16 | an item already typed is never offered again |
| ReplComplete.RSplitFirst | rusty-golf-setup/src/repl/complete.rs:31-34 | the text after the last separator, or all of it when there is none; TokenIsTail states this |
| ReplComplete.CurrentTokenPrefix | rusty-golf-setup/src/repl/complete.rs:30-35 | the first piece `rsplit` yields; TokenIsTail states that it is the separator-free text from TokenStartIndex to the end |
| ReplCommands.FindIn | setup/src/repl/commands.rs:105-109 | nothing is found exactly when no command answers to the name (as its name or an alias); otherwise the first command that answers |
| ReplCommands.FindInFirst | setup/src/repl/commands.rs:105-109 | the command found is the first of the table that answers |
| ReplCommands.FindSubcommand | setup/src/repl/commands.rs:111-118 | nothing is found exactly when no subcommand has the name; otherwise a subcommand with that name, aliases playing no part |
| ReplCommands.NamesUnique | setup/src/repl/commands.rs:46-103 | no two commands share a name, only the first command has aliases, and none of those is another command's name |
| ReplCommands.FindCommandByName | setup/src/repl/commands.rs:46-109 | every command is found by its own name and by each of its aliases |
| ReplCommands.HelpAliases | setup/src/repl/commands.rs:105-109 | the aliases "?", "-h" and "--help" of the help command all resolve to Help |
| ReplCommands.SubcommandByName | setup/src/repl/commands.rs:111-118 | the refresh subcommand is found by its name and not by its first letter |
| ReplCommands.Padding | setup/src/repl/commands.rs:139-140 | at least two spaces of padding |
| ReplCommands.DescriptionColumn | setup/src/repl/commands.rs:137-141 | descriptions start at column 24, or two spaces after names longer than 20 characters |
| ReplCommands.HelpLines | setup/src/repl/commands.rs:128-142 | one help line per command, in table order |
| ReplCommands.BuildReplHelp | setup/src/repl/commands.rs:126-144 | the help of the fixed command table is "Commands:" followed by one newline-prefixed line per command, in table order, as HelpTextIsJoin and HelpHasOneLinePerCommand describe |
| ReplCommands.BuildHelp | setup/src/repl/commands.rs:127-143 | the loop builds the heading followed by a newline-prefixed line per command |
| ReplCommands.HelpTextIsJoin | setup/src/repl/commands.rs:126-144 | the help text is "Commands:" and the command lines joined by newlines |
| ReplCommands.HelpHasOneLinePerCommand | setup/src/repl/commands.rs:126-144 | with no newline inside a command's texts, the help splits into the heading line and exactly one line per command |
| ReplCommands.HelpLineHasNoNewline | setup/src/repl/commands.rs:129-141 | a command whose texts hold no newline gets a help line without one |
| ReplCommands.FindCommand | setup/src/repl/commands.rs:105-109 | FindIn on the fixed table; FindCommandByName and HelpAliases state that each name and alias finds its command |
| ReplCommands.HelpLine | setup/src/repl/commands.rs:129-141 | two spaces, the names joined by ", ", the padding, the description; DescriptionColumn and HelpLineHasNoNewline state its layout |
| ReplCommands.HelpText | setup/src/repl/commands.rs:126-144 | "Commands:" then a newline and a line per command; HelpTextIsJoin and HelpHasOneLinePerCommand state its shape, and BuildHelp is proved equal to it |
| ReplPayload.BuildEventUserPlayer | rusty-golf-setup/src/repl/payload.rs:40-50 | one row per selection, in the same order |
| ReplPayload.EventUserPlayerReadsBack | rusty-golf-setup/src/repl/payload.rs:44-47 | each row reads back as its selection's bettor and golfer id |
| ReplPayload.SelectedIds | rusty-golf-setup/src/repl/payload.rs:62-63 | the espn ids of the selections, in order |
| ReplPayload.BuildGolfersPayload | rusty-golf-setup/src/repl/payload.rs:52-80 | an error exactly when some selected id is not among the golfers, naming the first; otherwise one golfer object per distinct selected id, in first-selection order, with the golfer's name |
| ReplPayload.SelectGolfers | rusty-golf-setup/src/repl/payload.rs:60-70 | the loop yields (name, id) for each id not seen before, or the first missing id's error |
| ReplPayload.SelectOne | rusty-golf-setup/src/repl/payload.rs:62-69 | one pass of the loop: it stops exactly when the next id is missing from the golfers, and otherwise extends the state to one more selection (the ids seen, and a pair for each distinct id with its golfer's name) |
| ReplPayload.GolfersPayloadIds | rusty-golf-setup/src/repl/payload.rs:60-70 | the payload lists every selected golfer exactly once, in the order they were first selected |
| ReplPayload.NewEventShape | rusty-golf-setup/src/repl/payload.rs:82-103 | the new event reads back its id, its name, its year (any i64) and step factor 3.0, and one data-to-fill block whose bettors are the given names as strings and whose golfers and rows are the given arrays |
| ReplPayload.WriteEventPayload | rusty-golf-setup/src/repl/payload.rs:9-38 | an error exactly when a selected golfer is unknown, and then it is "missing golfer {id}" for the first selection whose id is not listed; otherwise the existing events followed by exactly BuildNewEventJson of the event's id, year, name and bettors, GolfersPayload of the selections and their event-user-player rows |
| ReplPayload.BuildNewEventJson | rusty-golf-setup/src/repl/payload.rs:82-103 | the event object, its members in serde_json's key order; NewEventShape states what each key reads back as |
| ReplPayload.GolfersPayload | rusty-golf-setup/src/repl/payload.rs:51-80 | the Ok value of `build_golfers_payload` when every selected id is listed: one golfer object per distinct selected id, in first-selection order, with the name the golfers give it |
| OneShot.MatchGolferExact | rusty-golf-setup/src/repl/one_shot.rs:86-98 | the id of the first golfer with exactly that name when there is one; otherwise "Unknown golfer" with the suggestions, if any |
| OneShot.FirstOfSameName | rusty-golf-setup/src/repl/one_shot.rs:87-89 | two golfers sharing a name resolve to the earlier one |
| OneShot.Bettors | rusty-golf-setup/src/repl/one_shot.rs:64-66 | the bettor of each entry, in order |
| OneShot.SelectEntries | rusty-golf-setup/src/repl/one_shot.rs:61-73 | an error exactly when some entry's golfer is unknown, and then the first such error; otherwise the bettors once each in first-appearance order and one selection per entry, in order, with its golfer's id |
| OneShot.SelectBettors | rusty-golf-setup/src/repl/one_shot.rs:61-67 | the bettors without repeats, in order of first appearance |
| OneShot.EventName | rusty-golf-setup/src/repl/one_shot.rs:45-50 | the name of the first listed event with this id, else the id itself |
| OneShot.RunNewEventOneShot | rusty-golf-setup/src/repl/one_shot.rs:27-84 | "no events found" when there are no events, "no golfers found for event …" when the event has no golfers, then the unknown-golfer message (with its suggestions) of the first entry that does not resolve; otherwise the existing events followed by exactly the new event built from the event's name, the distinct bettors and the Selections of the entries |
| OneShot.MatchedIdIsListed | rusty-golf-setup/src/repl/one_shot.rs:86-89 | a matched id is one of the golfers' ids, so the payload always finds it |
| OneShot.ListedIdsHaveNames | rusty-golf-setup/src/repl/payload.rs:56-59 | every listed golfer's id has a name in the id map |
| OneShot.Resolve | rusty-golf-setup/src/repl/one_shot.rs:68 | an entry's golfer looked up with MatchGolferExact, with the suggestions for its name |
| OneShot.Selections | rusty-golf-setup/src/repl/one_shot.rs:61-73 | when every entry resolves, one selection per entry with its bettor, each naming a listed golfer |
| AdminNavigation.GetPageNumber | src/admin/model/admin_model/navigation.rs:22-29 | every page number is two characters starting with '0' |
| AdminNavigation.Parse | src/admin/model/admin_model/navigation.rs:13-20 | parsing is total: a page other than the landing page comes only from its own number, and any input that is no page's number gives the landing page |
| AdminNavigation.ParseGetPageNumber | src/admin/model/admin_model/navigation.rs:13-29 | every page's number parses back to that page |
| AdminNavigation.GetPageNumberInjective | src/admin/model/admin_model/navigation.rs:23-29 | different pages have different numbers |
| AdminNavigation.ParseIsStable | src/admin/model/admin_model/navigation.rs:13-29 | parsing, numbering and parsing again is parsing once |
| AdminValidation.LeadingAlphanumerics | src/admin/model/admin_model/validation.rs:37 | the count of leading ASCII letters and digits: all of those characters qualify and the next one does not |
| AdminValidation.PatternIsAlphaNum14 | src/admin/model/admin_model/validation.rs:37-41 | the anchored pattern accepts exactly the strings of 14 ASCII letters and digits |
| AdminValidation.New | src/admin/model/admin_model/validation.rs:32-46 | accepted exactly when the input is 14 ASCII letters and digits, and then holding the input unchanged |
| AdminValidation.TryFrom | src/admin/model/admin_model/validation.rs:12-19 | an error exactly when new refuses the input, with the long message; otherwise new's value |
| AdminValidation.Parse | src/admin/model/admin_model/validation.rs:56-58 | "Invalid input" exactly when new refuses the input; otherwise the input wrapped unchanged |
| AdminValidation.DefaultIsNotAccepted | src/admin/model/admin_model/validation.rs:6-10 | the default value "default" is one new would refuse |
| AdminValidation.ValueRoundTrip | src/admin/model/admin_model/validation.rs:41-58 | an accepted value is given back unchanged, and accepting or parsing it again gives the same value |
| AdminValidation.Default | src/admin/model/admin_model/validation.rs:6-10 | the value "default"; DefaultIsNotAccepted states that new would refuse it |
| MvuScore.Step | actix/src/mvu/score.rs:75-141 | PageLoad leaves the model alone and asks for the four loads; a load asks for a render exactly when HTML is wanted and everything has arrived; Rendered and Failed ask for nothing |
| MvuScore.OnlyOwnField | actix/src/mvu/score.rs:83-139 | every message other than PageLoad sets its own field and nothing else |
| MvuScore.JsonNeverRenders | actix/src/mvu/score.rs:85-126 | a JSON request never asks for a render |
| MvuScore.LoadedCount | actix/src/mvu/score.rs:87-125 | all four loaded fields are set exactly when the model is ready to render |
| MvuScore.RenderOnceAfterAllLoads | actix/src/mvu/score.rs:83-131 | whatever order the four loads arrive in, one each, the fields set are those loaded and an HTML page is asked for exactly once, after the last |
| MvuScore.LoadStep | actix/src/mvu/score.rs:83-131 | a load of a field not yet set adds that field only, and asks for a render when it completes the four |
| MvuScore.MentionsSnoc | actix/src/mvu/score.rs:83-131 | the fields a run of distinct loads sets are those of its prefix plus the last one's, which is new |
| MvuScore.ScoreModel.constructor | actix/src/mvu/score.rs:30-52 | a new model holds the request's settings and nothing loaded |
| MvuScore.ScoreModel.Update | actix/src/mvu/score.rs:75-141 | the new model and the effects are those of the step |
| ScoreViewUtils.ShortGolferName | core/src/view/score/utils.rs:7-16 | a name with no words comes back as it is; otherwise the result is the first word's first character, ". ", then one of the name's words |
| ScoreViewUtils.ShortNameOfWords | core/src/view/score/utils.rs:7-16 | words joined by single spaces shorten to the first word's initial, ". " and the last word |
| ScoreViewUtils.BlankNameKept | core/src/view/score/utils.rs:13-15 | a name made only of white space comes back unchanged |
| ScoreViewUtils.GroupedIsConcatenation | core/src/view/score/utils.rs:56-77 | after the grouping loop there is an entry for exactly the bettors present and, under each, for exactly the golfers paired with that bettor; each entry holds the hole scores and tee times of all of that pair's rows, concatenated in row order |
| ScoreViewUtils.NoPairNoLines | core/src/view/score/utils.rs:56-77 | a (bettor, golfer) pair with no row contributes no hole scores and no tee times |
| ScoreViewUtils.RoundHoleIsTotalPreorder | core/src/view/score/utils.rs:84 | the (round, hole) sort key is a total preorder |
| ScoreViewUtils.GroupRows | core/src/view/score/utils.rs:56-77 | the loop builds exactly the grouped maps GroupedIsConcatenation describes |
| ScoreViewUtils.BettorGolfers | core/src/view/score/utils.rs:80-96 | a bettor's golfers come out in ascending name order, exactly the golfers paired with the bettor, each with its hole scores sorted by (round, hole) and its tee times |
| ScoreViewUtils.LineScoreTables | core/src/view/score/utils.rs:48-99 | one table per bettor present, in ascending bettor name order, and every table lists each golfer the bettor picked once, ascending, with the tables BettorGolfers describes |
| ScoreViewUtils.GolferLinesSortedAndKept | core/src/view/score/utils.rs:82-89 | a golfer's hole scores are ordered by (round, hole) and are a permutation of that golfer's rows' hole scores |
| ScoreViewUtils.DuplicateRowsConcatenate | core/src/view/score/utils.rs:62-76 | a golfer listed twice under one bettor keeps the hole scores of both rows, first row first |
| ScoreViewUtils.GolferOrder | core/src/view/score/utils.rs:80-82 | the golfers of bettor b in ascending name order, exactly those paired with b, each a key of b's map |
| ScoreViewUtils.GolferEntry | core/src/view/score/utils.rs:82-90 | one golfer's table: its name and its hole scores sorted by (round, hole), as GolferTable defines |
| Linescore.BuildRoundList | rusty-golf-core/src/view/score/linescore.rs:57-59 | one round per tee time, numbered 1, 2, 3, … |
| Linescore.RoundListCountsUp | rusty-golf-core/src/view/score/linescore.rs:57-59 | the rounds strictly increase, hold exactly 1 to the number of tee times, and the last one is that number |
| Linescore.BuildTotals | rusty-golf-core/src/view/score/linescore.rs:154-163 | the totals have a key for exactly the rounds that occur, and each holds the sum of score minus par over that round's hole scores |
| Linescore.RoundTotalAbsent | rusty-golf-core/src/view/score/linescore.rs:156-160 | a round with no hole scores totals zero |
| Linescore.RoundTotalsAddUp | rusty-golf-core/src/view/score/linescore.rs:154-163 | the round totals add up to the sum of score minus par over all hole scores: no hole is lost or counted twice |
| Linescore.OtherRoundsUnchanged | rusty-golf-core/src/view/score/linescore.rs:157-160 | adding a hole score changes no other round's total |
| JsonValidation.Then | src/args/validation.rs:66-167 | two checks run in turn pass exactly when both pass; otherwise the first failure is reported |
| JsonValidation.FieldsVerdict | src/args/validation.rs:73-99 | the value checks pass exactly when event and year are numbers, name is a string and the step factor is a number; a bad event is reported before a bad year |
| JsonValidation.CheckKeysValid | src/args/validation.rs:67-100 | the key loop passes exactly when every key is one of the five known keys and, if there is any key, the four value checks pass |
| JsonValidation.CheckAllValid | src/args/validation.rs:122-167 | a loop over items that stops at the first failure passes exactly when every item passes |
| JsonValidation.CheckAllAppend | src/args/validation.rs:117-120 | checking two lists joined passes exactly when both lists pass |
| JsonValidation.DataKeysVerdict | src/args/validation.rs:106-115 | a data block passes its key check exactly when it is an object whose keys are all bettors, golfers or event_user_player |
| JsonValidation.Collect | src/args/validation.rs:117-120 | the lists are collected exactly when every data block has that key holding an array; otherwise the `unwrap` panics |
| JsonValidation.CollectAll | src/args/validation.rs:117-152 | every item of the collected list passes exactly when, in every data block, every item of that block's list passes |
| JsonValidation.BettorVerdict | src/args/validation.rs:122-129 | a bettor passes exactly when it is a string |
| JsonValidation.GolferVerdict | src/args/validation.rs:136-148 | a golfer passes exactly when it is an object with a string name and a numeric espn_id; a non-object gets the "Expected objects." error |
| JsonValidation.PairVerdict | src/args/validation.rs:154-167 | a bettor-golfer pair passes exactly when it is an object with a string bettor and a numeric golfer_espn_id; a non-object gets the "Expected objects." error |
| JsonValidation.ValidateJsonFormat | src/args/validation.rs:53-56 | a file that is not an array is rejected with "The json file is not in the correct format." |
| JsonValidation.ListVerdictValid | src/args/validation.rs:117-167 | a list check passes exactly when every data block holds that list and every item in it passes |
| JsonValidation.DataValid | src/args/validation.rs:106-167 | a data block with known keys and all three lists passes the three list checks exactly when it is well formed |
| JsonValidation.EventValid | src/args/validation.rs:66-167 | one event passes exactly when it is well formed: an object with known keys only, numeric event, year and step factor, a string name, and well-formed data blocks |
| JsonValidation.ValidIffWellFormed | src/args/validation.rs:53-171 | the file passes exactly when it is an array of well-formed events, so the check accepts everything it should and nothing else |
| JsonValidation.UnexpectedKeyRejected | src/args/validation.rs:67-72 | an event with a key outside the five known ones is rejected |
| JsonValidation.BadGolferRejected | src/args/validation.rs:131-148 | a golfer without a string name and a numeric espn_id is rejected |
| JsonValidation.BadPairRejected | src/args/validation.rs:149-167 | a bettor-golfer pair without a string bettor and a numeric golfer_espn_id is rejected |
| JsonValidation.FirstBadValueReported | src/args/validation.rs:73-99 | for an event whose keys are all known, the error reported is the first failing value check: event, then year, then name, then step factor |
| JsonValidation.EmptyEventPanics | src/args/validation.rs:103-105 | an event object with no keys skips the value checks, and reading its missing data blocks panics |
| EspnEvents.EventName | rusty-golf-setup/src/espn.rs:104-107 | the event's name when it is a string, otherwise its short name |
| EspnEvents.EventEntry | rusty-golf-setup/src/espn.rs:103-110 | an event contributes at most one pair, and exactly one, (id, name), when it has a string id and a name or short name |
| EspnEvents.ConcatMapSnoc | rusty-golf-setup/src/espn.rs:98-113 | one more item appends that item's pairs after the pairs so far |
| EspnEvents.ExtractEspnEvents | rusty-golf-setup/src/espn.rs:95-115 | the three nested loops push exactly the pairs the payload lists, sport by sport, league by league, event by event |
| EspnEvents.PushSportEvents | rusty-golf-setup/src/espn.rs:99-112 | the league loop appends the pairs of the sport's leagues, in order, to what was pushed before |
| EspnEvents.PushLeagueEvents | rusty-golf-setup/src/espn.rs:101-111 | the event loop appends the pairs of the league's usable events, in order, to what was pushed before |
| EspnEvents.ConcatMapMember | rusty-golf-setup/src/espn.rs:98-113 | a pair is listed exactly when one of the items contributes it |
| EspnEvents.ListedEventsExist | rusty-golf-setup/src/espn.rs:95-115 | every listed pair comes from an event at some sport, league and position of the payload that has a string id and a name or short name |
| EspnEvents.UsableEventsListed | rusty-golf-setup/src/espn.rs:95-115 | every event of the payload with a string id and a name or short name is listed |
| EspnEvents.ConcatMapAppend | rusty-golf-setup/src/espn.rs:98-113 | the pairs of two runs of items are the first run's pairs followed by the second's, so earlier sports come first |
| EspnEvents.NoSportsNoEvents | rusty-golf-setup/src/espn.rs:97-98 | a payload without a sports array lists nothing |
| BettorsState.PersistContents | setup/src/repl/state/bettors.rs:22-26 | the written text is empty exactly when the names join to nothing, and otherwise ends with a newline |
| BettorsState.LoadedNamesClean | setup/src/repl/state/bettors.rs:36-46 | every name read back is non-empty, trimmed and free of newlines |
| BettorsState.SelectionRoundTrip | setup/src/repl/state/bettors.rs:22-46 | a selection of non-empty, trimmed names without newlines, once saved, loads back exactly as it was, in order |
| BettorsState.PersistIsJoin | setup/src/repl/state/bettors.rs:23-26 | for a non-empty selection, the written text is the names followed by one empty piece, joined by newlines |
| BettorsState.TrimAllOfTrimmed | setup/src/repl/state/bettors.rs:41 | trimming names that are already trimmed changes nothing |
| BettorsState.NonEmptyDropsLast | setup/src/repl/state/bettors.rs:42 | the blank filter drops the empty piece after the final newline and keeps every non-empty name |
| BettorsState.ReadEupBettors | setup/src/repl/state/bettors.rs:48-74 | the names come out in strictly ascending order, each once, and are exactly the bettors the file's pairs name |
| BettorsState.InsertDataSetBettors | setup/src/repl/state/bettors.rs:59-69 | the loop over an event's data sets adds exactly the bettors of their pairs to the names found so far |
| BettorsState.InsertPlayerBettors | setup/src/repl/state/bettors.rs:63-67 | the loop over a data set's pairs adds exactly the string bettors to the names found so far |
| BettorsState.FileBettorsAreNamedBettors | setup/src/repl/state/bettors.rs:53-72 | a name is read exactly when some pair, in some data set of some event of the file, names it as its bettor |
| BettorsState.EnsureStep | setup/src/repl/state/bettors.rs:7-20 | a cached list is returned as it is; without a file path the answer and the cache are the empty list; otherwise the answer is the read's outcome, cached only when the read succeeds |
| BettorsState.CachedAnswerIsStable | setup/src/repl/state/bettors.rs:7-20 | once an answer is given, every later call gives the same answer, whatever the file would now read |
| BettorsState.FailedReadRetried | setup/src/repl/state/bettors.rs:17-18 | a failed read caches nothing, so the next call reads the file again |
| BettorsState.ReplBettorsState.constructor | rusty-golf-setup/src/repl/state/mod.rs:61-65 | a new state has nothing cached and keeps the given file path |
| BettorsState.ReplBettorsState.EnsureListBettors | setup/src/repl/state/bettors.rs:7-20 | the answer and the new cache are those EnsureStep gives for the old cache, and the file path is unchanged |
| BettorsState.LoadContents | setup/src/repl/state/bettors.rs:36-46 | the lines, trimmed, blank ones dropped; LoadedNamesClean and SelectionRoundTrip state their shape and the round trip with PersistContents |

## Left out

- Storage and network I/O (the database, KV, R2, files, ESPN and HTTP) is not modelled. Each read or download is an argument carrying its outcome, and writes are the text or state they would store.
- The wall clock is the parameter `now`. Tee-time and RFC 3339 parsing (chrono) are functions passed in.
- JSON text parsing (serde) is not modelled. The model starts from the parsed value, `Json.Json`.
- Floating point is modelled with `real`:
  - step factors are `real`;
  - the year and month branches of the time-ago text are `TimeAgo.Fraction` values, not rounded decimal text;
  - golfer-name suggestions (Jaro-Winkler in `closest_golfers`) are passed in as a function.
- i32 arithmetic is unbounded. Sums of hole scores, round totals and bettor totals do not model overflow. `as i32` conversions are written out where the source casts (`SeedHelpers.AsI32`).
- Hash-map iteration order is modelled by picking any remaining key (`Pick`). The results proved do not depend on that order, because the source sorts afterwards or combines with commutative sums.
- Concurrency is not modelled: the per-event locks, the fan-out of ESPN downloads, and the async drivers of the MVU runtime. Neither is the lock document's KV round trip; `AdminLock.TestLockDoc` is the document once read.
- The `eup_event_exists` warning printed by the one-shot setup is left out, because it only writes to the terminal.
- Strings are sequences of characters:
  - white space is the ASCII set;
  - lower-casing is ASCII;
  - completion positions are character indices where the source uses byte offsets.
- `str::lines` is modelled as a split on '\n'. Its stripping of a trailing '\r' and its dropping of a final empty line do not change the result, because the selection loader trims every line and drops blank ones.
- TableSort.ParseDate: a date cell is reduced to the month, day, hour and minute it spells out, and `Before` orders cells by those fields. The source starts from today's date (`new Date()`), then calls `setMonth` before `setDate` (static/tablesort.js:164-170). So today's day of month can reorder well-formed cells, and the model does not capture this. Example: on January 31, "2/5 1:00pm" first becomes February 31, which rolls over to March 3, and then March 5. The source then sorts it after "3/1 1:00pm", while the model puts it first. The current year, leap years and rollover of out-of-range cells such as "2/30" are not modelled either.
- Numeric cells are the decimal literals `[+-]digits[.digits]`. Exponents, hex and `Infinity` are not recognised.
- `initializeSorting` in static/tablesort.js is not modelled. It registers a second, 0-based click listener on each header, next to the page template's 1-based `onclick`.
- HTML rendering is not modelled. This covers the Maud views, the score-shape markup, chart widths and the admin pages. Only the computations the views show are modelled: line-score tables, round totals, short names and the time-ago text.
- `bettors_selection_exists` (a file-existence query) and `check_readable_file` are file-system checks, so they are left out.
- `admin_test_unlock_all` is left out. It deletes every lock document under a prefix and is a storage operation.
- ReplCommands.HelpHasOneLinePerCommand: proved for any command table whose names and descriptions hold no newline. It is not evaluated on the concrete table of `build_repl_help`.
- TableSort.ScoresTable.SortTable: requires every data row to have TD cell n + 1. In the source, a shorter row makes the scan throw a TypeError part-way through the sort (static/tablesort.js:86-87), after the header is marked and some swaps may be done. That partial state is not modelled. The missing table and the missing header row or header cell are modelled by `TableSort.SortTableById`.
- TableSort.SortTableById: requires the same data-row cells once the table, header row and header cell are found, for the same reason.
