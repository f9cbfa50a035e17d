/**
 * The setup tool's bettor list (setup/src/repl/state/bettors.rs): the saved
 * selection file, written one name per line and read back trimmed without
 * blank lines, and the bettors of an event-user-player file, collected into
 * an ordered set.  File reads and writes become the text they read or write.
 */
module BettorsState {
  import opened Wrappers
  import opened Text
  import opened Json
  import opened Collections

  // ----- the selection file -----

  /** `persist_bettors_selection`: the names joined by newlines, with a final newline unless that is empty. */
  function PersistContents(bettors: seq<string>): (contents: string)
    ensures |contents| > 0 ==> contents[|contents| - 1] == '\n'
    ensures |contents| == 0 <==> Join(bettors, "\n") == ""
  {
    var joined := Join(bettors, "\n");
    if joined != "" then joined + "\n" else joined
  }

  /** A name as the selection file keeps it: non-empty, trimmed, on one line. */
  predicate CleanName(s: string) {
    s != "" && IsTrimmed(s) && NoneMatch(s, IsNewline)
  }

  /** `load_bettors_selection`: the lines, trimmed, blank ones dropped. */
  function LoadContents(contents: string): seq<string> {
    NonEmpty(TrimAll(SplitBy(contents, IsNewline)))
  }

  /** Every name read back is non-empty, trimmed and on one line. */
  lemma LoadedNamesClean(contents: string)
    ensures forall i :: 0 <= i < |LoadContents(contents)| ==> CleanName(LoadContents(contents)[i])
  {
    var lines := TrimAll(SplitBy(contents, IsNewline));
    forall i | 0 <= i < |lines| ensures NoneMatch(lines[i], IsNewline) {
      TrimSlice(SplitBy(contents, IsNewline)[i]);
    }
    NonEmptyKeeps(lines, IsNewline);
    TrimmedPieces(lines);
  }

  /** A trimmed string is a slice of the original, so it has no characters the original lacks. */
  lemma TrimSlice(s: string)
    requires NoneMatch(s, IsNewline)
    ensures NoneMatch(Trim(s), IsNewline)
  {
    var t := Trim(s);
    assert forall i :: 0 <= i < |t| ==> t[i] in s;
  }

  lemma TrimmedPieces(lines: seq<string>)
    requires forall i :: 0 <= i < |lines| ==> IsTrimmed(lines[i])
    ensures forall i :: 0 <= i < |NonEmpty(lines)| ==> IsTrimmed(NonEmpty(lines)[i])
  {
  }

  /** Names that are trimmed, non-empty and without newlines are read back as written. */
  lemma SelectionRoundTrip(bettors: seq<string>)
    requires forall i :: 0 <= i < |bettors| ==> CleanName(bettors[i])
    ensures LoadContents(PersistContents(bettors)) == bettors
  {
    if |bettors| == 0 {
      assert PersistContents(bettors) == "";
      assert SplitBy("", IsNewline) == [""];
      assert TrimAll([""]) == [""];
    } else {
      var parts := bettors + [""];
      PersistIsJoin(bettors);
      CleanPieces(bettors);
      SplitJoin(parts, '\n', IsNewline);
      assert SplitBy(PersistContents(bettors), IsNewline) == parts;
      TrimAllOfTrimmed(parts);
      NonEmptyDropsLast(bettors);
    }
  }

  /** The pieces of the written text, the names and the empty piece after the last newline, are trimmed and on one line. */
  lemma CleanPieces(bettors: seq<string>)
    requires forall i :: 0 <= i < |bettors| ==> CleanName(bettors[i])
    ensures forall i :: 0 <= i < |bettors + [""]| ==>
      IsTrimmed((bettors + [""])[i]) && NoneMatch((bettors + [""])[i], IsNewline)
  {
    var parts := bettors + [""];
    forall i | 0 <= i < |parts| ensures IsTrimmed(parts[i]) && NoneMatch(parts[i], IsNewline) {
      if i < |bettors| {
        assert parts[i] == bettors[i];
      } else {
        assert parts[i] == "";
      }
    }
  }

  /** The written text of non-empty names is the names and one empty piece, joined by newlines. */
  lemma PersistIsJoin(bettors: seq<string>)
    requires |bettors| > 0 && bettors[0] != ""
    ensures PersistContents(bettors) == Join(bettors + [""], "\n")
  {
    JoinSnoc(bettors, "", "\n");
    assert Join(bettors + [""], "\n") == Join(bettors, "\n") + "\n" + "";
    NonEmptyJoin(bettors);
  }

  lemma TrimAllOfTrimmed(parts: seq<string>)
    requires forall i :: 0 <= i < |parts| ==> IsTrimmed(parts[i])
    ensures TrimAll(parts) == parts
  {
    forall i | 0 <= i < |parts| ensures Trim(parts[i]) == parts[i] {
      TrimOfTrimmed(parts[i]);
    }
  }

  /** Non-empty names join to a non-empty text. */
  lemma NonEmptyJoin(bettors: seq<string>)
    requires |bettors| > 0 && bettors[0] != ""
    ensures Join(bettors, "\n") != ""
  {
  }

  /** A trailing empty piece is dropped and the non-empty ones kept. */
  lemma {:induction false} NonEmptyDropsLast(parts: seq<string>)
    requires forall i :: 0 <= i < |parts| ==> parts[i] != ""
    ensures NonEmpty(parts + [""]) == parts
  {
    if |parts| > 0 {
      assert (parts + [""])[1..] == parts[1..] + [""];
      NonEmptyDropsLast(parts[1..]);
    }
  }

  // ----- bettors of an event-user-player file -----

  function Items(v: Json, key: string): seq<Json> {
    GetArray(v, key).GetOr([])
  }

  /** The union of f over the items, taken item by item. */
  function UnionOf(items: seq<Json>, f: Json -> set<string>): set<string> {
    if |items| == 0 then {}
    else UnionOf(items[..|items| - 1], f) + f(items[|items| - 1])
  }

  /** A name is in the union exactly when one of the items contributes it. */
  lemma {:induction false} UnionOfMember(items: seq<Json>, f: Json -> set<string>, b: string)
    ensures b in UnionOf(items, f) <==> exists i :: 0 <= i < |items| && b in f(items[i])
  {
    if |items| > 0 {
      var n := |items| - 1;
      var prefix := items[..n];
      UnionOfMember(prefix, f, b);
      if b in UnionOf(prefix, f) {
        var i :| 0 <= i < n && b in f(prefix[i]);
        assert prefix[i] == items[i];
      }
      if exists i :: 0 <= i < |items| && b in f(items[i]) {
        var i :| 0 <= i < |items| && b in f(items[i]);
        if i < n {
          assert prefix[i] == items[i];
        }
      }
    }
  }

  /** The bettor a pair names, if it names one as a string. */
  function PairBettor(pair: Json): set<string> {
    match GetStr(pair, "bettor")
    case Some(b) => {b}
    case None => {}
  }

  /** The bettor names of the pairs of one data set. */
  function PlayerBettors(players: seq<Json>): set<string> {
    UnionOf(players, PairBettor)
  }

  /** The bettor names of a data set's pair list. */
  function DataSetNames(dataSet: Json): set<string> {
    PlayerBettors(Items(dataSet, "event_user_player"))
  }

  function DataSetBettors(dataSets: seq<Json>): set<string> {
    UnionOf(dataSets, DataSetNames)
  }

  /** The bettor names of an event's data sets. */
  function EntryNames(entry: Json): set<string> {
    DataSetBettors(Items(entry, "data_to_fill_if_event_and_year_missing"))
  }

  function EntryBettors(entries: seq<Json>): set<string> {
    UnionOf(entries, EntryNames)
  }

  /** Every bettor named by a pair of a data set of an event of the file. */
  function FileBettors(payload: Json): set<string> {
    EntryBettors(AsArray(payload).GetOr([]))
  }

  /**
   * `read_eup_bettors` once the file is parsed: the names in ascending
   * order, each once, exactly those FileBettors holds.
   */
  method ReadEupBettors(payload: Json) returns (bettors: seq<string>)
    ensures Ascending(bettors, LessEq)
    ensures forall b :: b in bettors <==> b in FileBettors(payload)
  {
    var found: set<string> := {};
    var entries := AsArray(payload).GetOr([]);
    for i := 0 to |entries|
      invariant found == EntryBettors(entries[..i])
    {
      assert entries[..i + 1][..i] == entries[..i];
      found := InsertDataSetBettors(found, Items(entries[i], "data_to_fill_if_event_and_year_missing"));
    }
    assert entries[..|entries|] == entries;
    LessEqIsTotalOrder();
    bettors := SortedKeys(found, LessEq);
  }

  /** The loop over one event's data sets. */
  method InsertDataSetBettors(found: set<string>, dataSets: seq<Json>) returns (inserted: set<string>)
    ensures inserted == found + DataSetBettors(dataSets)
  {
    inserted := found;
    for j := 0 to |dataSets|
      invariant inserted == found + DataSetBettors(dataSets[..j])
    {
      assert dataSets[..j + 1][..j] == dataSets[..j];
      inserted := InsertPlayerBettors(inserted, Items(dataSets[j], "event_user_player"));
    }
    assert dataSets[..|dataSets|] == dataSets;
  }

  /** The loop over one data set's pairs, inserting each string bettor. */
  method InsertPlayerBettors(found: set<string>, players: seq<Json>) returns (inserted: set<string>)
    ensures inserted == found + PlayerBettors(players)
  {
    inserted := found;
    for k := 0 to |players|
      invariant inserted == found + PlayerBettors(players[..k])
    {
      assert players[..k + 1][..k] == players[..k];
      var bettor := GetStr(players[k], "bettor");
      if bettor.Some? {
        inserted := inserted + {bettor.value};
      }
    }
    assert players[..|players|] == players;
  }

  /** The pair at event e, data set d, position p of the file. */
  predicate PairAt(payload: Json, e: int, d: int, p: int, pair: Json) {
    && payload.JArray? && 0 <= e < |payload.items|
    && 0 <= d < |Items(payload.items[e], "data_to_fill_if_event_and_year_missing")|
    && 0 <= p < |Items(Items(payload.items[e], "data_to_fill_if_event_and_year_missing")[d], "event_user_player")|
    && pair == Items(Items(payload.items[e], "data_to_fill_if_event_and_year_missing")[d], "event_user_player")[p]
  }

  lemma PlayerBettorsMember(players: seq<Json>, b: string)
    ensures b in PlayerBettors(players) <==> exists p :: 0 <= p < |players| && GetStr(players[p], "bettor") == Some(b)
  {
    UnionOfMember(players, PairBettor, b);
    assert forall p :: 0 <= p < |players| ==> (b in PairBettor(players[p]) <==> GetStr(players[p], "bettor") == Some(b));
  }

  lemma DataSetBettorsMember(dataSets: seq<Json>, b: string)
    ensures b in DataSetBettors(dataSets) <==> exists d :: 0 <= d < |dataSets| && b in PlayerBettors(Items(dataSets[d], "event_user_player"))
  {
    UnionOfMember(dataSets, DataSetNames, b);
  }

  lemma EntryBettorsMember(entries: seq<Json>, b: string)
    ensures b in EntryBettors(entries) <==>
      exists e :: 0 <= e < |entries| && b in DataSetBettors(Items(entries[e], "data_to_fill_if_event_and_year_missing"))
  {
    UnionOfMember(entries, EntryNames, b);
  }

  /** A name is read exactly when some pair of the file names it as its bettor. */
  lemma FileBettorsAreNamedBettors(payload: Json, b: string)
    ensures b in FileBettors(payload) <==>
      exists e, d, p, pair :: PairAt(payload, e, d, p, pair) && GetStr(pair, "bettor") == Some(b)
  {
    var entries := AsArray(payload).GetOr([]);
    EntryBettorsMember(entries, b);
    if b in FileBettors(payload) {
      var e :| 0 <= e < |entries| && b in DataSetBettors(Items(entries[e], "data_to_fill_if_event_and_year_missing"));
      var dataSets := Items(entries[e], "data_to_fill_if_event_and_year_missing");
      DataSetBettorsMember(dataSets, b);
      var d :| 0 <= d < |dataSets| && b in PlayerBettors(Items(dataSets[d], "event_user_player"));
      var players := Items(dataSets[d], "event_user_player");
      PlayerBettorsMember(players, b);
      var p :| 0 <= p < |players| && GetStr(players[p], "bettor") == Some(b);
      assert PairAt(payload, e, d, p, players[p]);
    }
    if exists e, d, p, pair :: PairAt(payload, e, d, p, pair) && GetStr(pair, "bettor") == Some(b) {
      var e, d, p, pair :| PairAt(payload, e, d, p, pair) && GetStr(pair, "bettor") == Some(b);
      var dataSets := Items(entries[e], "data_to_fill_if_event_and_year_missing");
      var players := Items(dataSets[d], "event_user_player");
      PlayerBettorsMember(players, b);
      DataSetBettorsMember(dataSets, b);
    }
  }

  // ----- the cached bettor list -----

  /** `ensure_list_bettors` on the state as a value: the answer and the cache afterwards. */
  function EnsureStep(cached: Option<seq<string>>, eupJsonPath: Option<string>, read: Result<seq<string>, string>):
    (r: (Result<seq<string>, string>, Option<seq<string>>))
    ensures cached.Some? ==> r == (Ok(cached.value), cached)
    ensures cached.None? && eupJsonPath.None? ==> r == (Ok([]), Some([]))
    ensures cached.None? && eupJsonPath.Some? ==> r.0 == read && r.1 == (if read.Ok? then Some(read.value) else None)
  {
    if cached.Some? then (Ok(cached.value), cached)
    else if eupJsonPath.None? then (Ok([]), Some([]))
    else match read
      case Ok(bettors) => (Ok(bettors), Some(bettors))
      case Err(e) => (Err(e), cached)
  }

  /** Once an answer is cached, every later call gives the same answer, whatever the file would now read. */
  lemma CachedAnswerIsStable(cached: Option<seq<string>>, eupJsonPath: Option<string>,
    first: Result<seq<string>, string>, later: Result<seq<string>, string>)
    requires EnsureStep(cached, eupJsonPath, first).0.Ok?
    ensures var (answer, cache) := EnsureStep(cached, eupJsonPath, first);
      EnsureStep(cache, eupJsonPath, later) == (answer, cache)
  {
  }

  /** A failed read caches nothing, so the next call reads again. */
  lemma FailedReadRetried(eupJsonPath: string, first: Result<seq<string>, string>, later: Result<seq<string>, string>)
    requires first.Err?
    ensures EnsureStep(EnsureStep(None, Some(eupJsonPath), first).1, Some(eupJsonPath), later).0 == later
  {
  }

  /** The bettor-related part of the setup tool's state. */
  class ReplBettorsState {
    var cachedBettors: Option<seq<string>>
    var eupJsonPath: Option<string>

    constructor (eupJsonPath: Option<string>)
      ensures cachedBettors == None && this.eupJsonPath == eupJsonPath
    {
      cachedBettors := None;
      this.eupJsonPath := eupJsonPath;
    }

    /**
     * `ensure_list_bettors`, with `read` the outcome of reading the
     * event-user-player file (ReadEupBettors once the file is read and parsed).
     */
    method EnsureListBettors(read: Result<seq<string>, string>) returns (r: Result<seq<string>, string>)
      modifies this
      ensures (r, cachedBettors) == EnsureStep(old(cachedBettors), eupJsonPath, read)
      ensures eupJsonPath == old(eupJsonPath)
    {
      if cachedBettors.Some? {
        return Ok(cachedBettors.value);
      }
      if eupJsonPath.None? {
        cachedBettors := Some([]);
        return Ok([]);
      }
      match read {
        case Err(e) =>
          return Err(e);
        case Ok(bettors) =>
          cachedBettors := Some(bettors);
          return Ok(bettors);
      }
    }
  }
}
