/**
 * The shape check of the event seed file (src/args/validation.rs,
 * `validate_json_format`): a top-level array of events, each with only the
 * known keys, numeric ids and step factor, a string name, and blocks of
 * bettors, golfers and bettor-golfer pairs of the right shapes.  The checks
 * run in the source's order and stop at the first failure; an `unwrap` on a
 * value of the wrong shape is the outcome `Panics`.
 */
module JsonValidation {
  import opened Wrappers
  import opened Json

  datatype Verdict = Valid | Invalid(message: string) | Panics

  /** The first failure of two checks run one after the other. */
  function Then(first: Verdict, next: Verdict): (r: Verdict)
    ensures r == Valid <==> first == Valid && next == Valid
  {
    if first.Valid? then next else first
  }

  const DATA_TO_FILL: string := "data_to_fill_if_event_and_year_missing"
  const TOP_KEYS: seq<string> := ["event", "year", "name", DATA_TO_FILL, "score_view_step_factor"]
  const DATA_KEYS: seq<string> := ["bettors", "golfers", "event_user_player"]

  const NOT_ARRAY: string := "The json file is not in the correct format."
  const UNEXPECTED_KEY: string :=
    "The json file is not in the correct format. Expected keys: [\"event\", \"year\", \"name\", \"data_to_fill_if_event_and_year_missing\", \"score_view_step_factor\"]"
  const EVENT_NOT_NUMBER: string := "The json key event is not in the correct format. Expected a number."
  const YEAR_NOT_NUMBER: string := "The json key year is not in the correct format. Expected a number."
  const NAME_NOT_STRING: string := "The json key name is not in the correct format. Expected a string."
  const FACTOR_NOT_NUMBER: string := "The json key score_view_step_factor is not in the correct format. Expected a number."
  const UNEXPECTED_DATA_KEY: string :=
    "The json key data_to_fill_if_event_and_year_missing is not in the correct format. Expected keys: [\"bettors\", \"golfers\", \"event_user_player\"]"
  const BETTOR_NOT_STRING: string := "The json key bettors is not in the correct format. Expected strings."
  const GOLFER_NOT_OBJECT: string := "The json key golfers is not in the correct format. Expected objects."
  const GOLFER_KEYS: string := "The json key golfers is not in the correct format. Expected objects with keys name and espn_id."
  const EUP_NOT_OBJECT: string := "The json key event_user_player is not in the correct format. Expected objects."
  const EUP_KEYS: string := "The json key event_user_player is not in the correct format. Expected objects with keys bettor and golfer_espn_id."

  // ----- what a well-formed file is -----

  predicate WellFormedGolfer(g: Json) {
    g.JObject? && Index(g, "name").JString? && IsNumber(Index(g, "espn_id"))
  }

  predicate WellFormedPair(p: Json) {
    p.JObject? && Index(p, "bettor").JString? && IsNumber(Index(p, "golfer_espn_id"))
  }

  /** A data block: an object with known keys only, whose three lists exist and hold the right shapes. */
  predicate WellFormedData(d: Json) {
    && d.JObject?
    && (forall k :: 0 <= k < |d.members| ==> d.members[k].0 in DATA_KEYS)
    && Index(d, "bettors").JArray? && Index(d, "golfers").JArray? && Index(d, "event_user_player").JArray?
    && (forall i :: 0 <= i < |Index(d, "bettors").items| ==> Index(d, "bettors").items[i].JString?)
    && (forall i :: 0 <= i < |Index(d, "golfers").items| ==> WellFormedGolfer(Index(d, "golfers").items[i]))
    && (forall i :: 0 <= i < |Index(d, "event_user_player").items| ==>
          WellFormedPair(Index(d, "event_user_player").items[i]))
  }

  /** An event: an object with known keys only, numeric ids and factor, a string name and well-formed data blocks. */
  predicate WellFormedEvent(e: Json) {
    && e.JObject?
    && (forall k :: 0 <= k < |e.members| ==> e.members[k].0 in TOP_KEYS)
    && IsNumber(Index(e, "event")) && IsNumber(Index(e, "year")) && Index(e, "name").JString?
    && IsNumber(Index(e, "score_view_step_factor"))
    && Index(e, DATA_TO_FILL).JArray?
    && (forall i :: 0 <= i < |Index(e, DATA_TO_FILL).items| ==> WellFormedData(Index(e, DATA_TO_FILL).items[i]))
  }

  predicate WellFormed(json: Json) {
    json.JArray? && forall i :: 0 <= i < |json.items| ==> WellFormedEvent(json.items[i])
  }

  // ----- the checks, in the source's order -----

  /** The four per-event value checks, in order. */
  function FieldsVerdict(e: Json): (r: Verdict)
    ensures r.Valid? <==> (IsNumber(Index(e, "event")) && IsNumber(Index(e, "year")) && Index(e, "name").JString?
      && IsNumber(Index(e, "score_view_step_factor")))
    ensures !IsNumber(Index(e, "event")) ==> r == Invalid(EVENT_NOT_NUMBER)
    ensures IsNumber(Index(e, "event")) && !IsNumber(Index(e, "year")) ==> r == Invalid(YEAR_NOT_NUMBER)
  {
    if !IsNumber(Index(e, "event")) then Invalid(EVENT_NOT_NUMBER)
    else if !IsNumber(Index(e, "year")) then Invalid(YEAR_NOT_NUMBER)
    else if !Index(e, "name").JString? then Invalid(NAME_NOT_STRING)
    else if !IsNumber(Index(e, "score_view_step_factor")) then Invalid(FACTOR_NOT_NUMBER)
    else Valid
  }

  /** The key loop: each key must be known, and after each key the four value checks run. */
  function CheckKeys(keys: seq<string>, e: Json): (r: Verdict)
  {
    if |keys| == 0 then Valid
    else if keys[0] !in TOP_KEYS then Invalid(UNEXPECTED_KEY)
    else Then(FieldsVerdict(e), CheckKeys(keys[1..], e))
  }

  /** An event with keys passes the key loop exactly when all its keys are known and its values have the right types. */
  lemma {:induction false} CheckKeysValid(keys: seq<string>, e: Json)
    ensures CheckKeys(keys, e) == Valid <==>
      (forall k :: 0 <= k < |keys| ==> keys[k] in TOP_KEYS) && (|keys| > 0 ==> FieldsVerdict(e) == Valid)
  {
    if |keys| > 0 && keys[0] in TOP_KEYS {
      CheckKeysValid(keys[1..], e);
      assert forall k :: 1 <= k < |keys| ==> keys[k] == keys[1..][k - 1];
    }
  }

  /** The first failure over a list of items. */
  function CheckAll(items: seq<Json>, check: Json -> Verdict): (r: Verdict)
  {
    if |items| == 0 then Valid else Then(check(items[0]), CheckAll(items[1..], check))
  }

  lemma {:induction false} CheckAllValid(items: seq<Json>, check: Json -> Verdict)
    ensures CheckAll(items, check) == Valid <==> forall i :: 0 <= i < |items| ==> check(items[i]) == Valid
  {
    if |items| > 0 {
      CheckAllValid(items[1..], check);
      assert forall i :: 1 <= i < |items| ==> items[i] == items[1..][i - 1];
    }
  }

  /** The data-block key loop: every block must be an object (else `unwrap` panics) with known keys. */
  function DataKeysVerdict(d: Json): (r: Verdict)
    ensures r == Valid <==> d.JObject? && forall k :: 0 <= k < |d.members| ==> d.members[k].0 in DATA_KEYS
  {
    if !d.JObject? then Panics
    else if exists k :: 0 <= k < |d.members| && d.members[k].0 !in DATA_KEYS then Invalid(UNEXPECTED_DATA_KEY)
    else Valid
  }

  /** `flat_map(|x| x[key].as_array().unwrap())`: the lists concatenated, or None when one is missing (a panic). */
  function Collect(datas: seq<Json>, key: string): (r: Option<seq<Json>>)
    ensures r.Some? <==> forall i :: 0 <= i < |datas| ==> Index(datas[i], key).JArray?
  {
    if |datas| == 0 then Some([])
    else
      match AsArray(Index(datas[0], key))
      case None => None
      case Some(first) =>
        match Collect(datas[1..], key)
        case None => None
        case Some(rest) => Some(first + rest)
  }

  /** Every collected item is an item of one of the lists, and every item of every list is collected. */
  lemma {:induction false} CollectAll(datas: seq<Json>, key: string, check: Json -> Verdict)
    requires Collect(datas, key).Some?
    ensures CheckAll(Collect(datas, key).value, check) == Valid <==>
      forall i :: 0 <= i < |datas| ==> CheckAll(Index(datas[i], key).items, check) == Valid
  {
    if |datas| > 0 {
      CollectAll(datas[1..], key, check);
      CheckAllAppend(Index(datas[0], key).items, Collect(datas[1..], key).value, check);
      assert forall i :: 1 <= i < |datas| ==> datas[i] == datas[1..][i - 1];
    }
  }

  lemma {:induction false} CheckAllAppend(a: seq<Json>, b: seq<Json>, check: Json -> Verdict)
    ensures CheckAll(a + b, check) == Valid <==> CheckAll(a, check) == Valid && CheckAll(b, check) == Valid
  {
    CheckAllValid(a, check);
    CheckAllValid(b, check);
    CheckAllValid(a + b, check);
    assert forall i :: 0 <= i < |a| ==> (a + b)[i] == a[i];
    assert forall i :: 0 <= i < |b| ==> (a + b)[|a| + i] == b[i];
  }

  function BettorVerdict(b: Json): (r: Verdict)
    ensures r == Valid <==> b.JString?
  {
    if !b.JString? then Invalid(BETTOR_NOT_STRING) else Valid
  }

  function GolferVerdict(g: Json): (r: Verdict)
    ensures r == Valid <==> WellFormedGolfer(g)
    ensures !g.JObject? ==> r == Invalid(GOLFER_NOT_OBJECT)
  {
    if !g.JObject? then Invalid(GOLFER_NOT_OBJECT)
    else if !Index(g, "name").JString? || !IsNumber(Index(g, "espn_id")) then Invalid(GOLFER_KEYS)
    else Valid
  }

  function PairVerdict(p: Json): (r: Verdict)
    ensures r == Valid <==> WellFormedPair(p)
    ensures !p.JObject? ==> r == Invalid(EUP_NOT_OBJECT)
  {
    if !p.JObject? then Invalid(EUP_NOT_OBJECT)
    else if !Index(p, "bettor").JString? || !IsNumber(Index(p, "golfer_espn_id")) then Invalid(EUP_KEYS)
    else Valid
  }

  /** One collected list checked item by item; a missing list panics. */
  function ListVerdict(datas: seq<Json>, key: string, check: Json -> Verdict): Verdict {
    match Collect(datas, key)
    case None => Panics
    case Some(items) => CheckAll(items, check)
  }

  /** The checks of one event, in order: its keys, its data blocks' keys, then bettors, golfers and pairs. */
  function CheckEvent(e: Json): Verdict {
    if !e.JObject? then Panics
    else
      Then(CheckKeys(Keys(e.members), e),
        match AsArray(Index(e, DATA_TO_FILL))
        case None => Panics
        case Some(datas) =>
          Then(CheckAll(datas, DataKeysVerdict),
            Then(ListVerdict(datas, "bettors", BettorVerdict),
              Then(ListVerdict(datas, "golfers", GolferVerdict),
                ListVerdict(datas, "event_user_player", PairVerdict)))))
  }

  /** `validate_json_format`. */
  function ValidateJsonFormat(json: Json): (r: Verdict)
    ensures !json.JArray? ==> r == Invalid(NOT_ARRAY)
  {
    if !json.JArray? then Invalid(NOT_ARRAY) else CheckAll(json.items, CheckEvent)
  }

  // ----- properties -----

  /** A list passes exactly when every block has the list and every item of it passes. */
  lemma ListVerdictValid(datas: seq<Json>, key: string, check: Json -> Verdict)
    ensures ListVerdict(datas, key, check) == Valid <==>
      forall i :: 0 <= i < |datas| ==> Index(datas[i], key).JArray? && CheckAll(Index(datas[i], key).items, check) == Valid
  {
    if Collect(datas, key).Some? {
      CollectAll(datas, key, check);
    }
  }

  /** A data block passes its three list checks exactly when it is well formed. */
  lemma DataValid(d: Json)
    requires d.JObject? && forall k :: 0 <= k < |d.members| ==> d.members[k].0 in DATA_KEYS
    requires Index(d, "bettors").JArray? && Index(d, "golfers").JArray? && Index(d, "event_user_player").JArray?
    ensures WellFormedData(d) <==>
      && CheckAll(Index(d, "bettors").items, BettorVerdict) == Valid
      && CheckAll(Index(d, "golfers").items, GolferVerdict) == Valid
      && CheckAll(Index(d, "event_user_player").items, PairVerdict) == Valid
  {
    CheckAllValid(Index(d, "bettors").items, BettorVerdict);
    CheckAllValid(Index(d, "golfers").items, GolferVerdict);
    CheckAllValid(Index(d, "event_user_player").items, PairVerdict);
  }

  /** An event passes exactly when it is well formed. */
  lemma EventValid(e: Json)
    ensures CheckEvent(e) == Valid <==> WellFormedEvent(e)
  {
    if e.JObject? {
      var keys := Keys(e.members);
      CheckKeysValid(keys, e);
      if Index(e, DATA_TO_FILL).JArray? {
        var datas := Index(e, DATA_TO_FILL).items;
        CheckAllValid(datas, DataKeysVerdict);
        ListVerdictValid(datas, "bettors", BettorVerdict);
        ListVerdictValid(datas, "golfers", GolferVerdict);
        ListVerdictValid(datas, "event_user_player", PairVerdict);
        forall i | 0 <= i < |datas| && DataKeysVerdict(datas[i]) == Valid && Index(datas[i], "bettors").JArray?
          && Index(datas[i], "golfers").JArray? && Index(datas[i], "event_user_player").JArray?
          ensures WellFormedData(datas[i]) <==>
            && CheckAll(Index(datas[i], "bettors").items, BettorVerdict) == Valid
            && CheckAll(Index(datas[i], "golfers").items, GolferVerdict) == Valid
            && CheckAll(Index(datas[i], "event_user_player").items, PairVerdict) == Valid
        {
          DataValid(datas[i]);
        }
      }
    }
  }

  /** The file passes exactly when it is well formed: the check accepts everything it should and nothing else. */
  lemma ValidIffWellFormed(json: Json)
    ensures ValidateJsonFormat(json) == Valid <==> WellFormed(json)
  {
    if json.JArray? {
      CheckAllValid(json.items, CheckEvent);
      forall i | 0 <= i < |json.items| ensures CheckEvent(json.items[i]) == Valid <==> WellFormedEvent(json.items[i]) {
        EventValid(json.items[i]);
      }
    }
  }

  /** An event with a key outside the five known ones is rejected. */
  lemma UnexpectedKeyRejected(json: Json, i: int, k: int)
    requires json.JArray? && 0 <= i < |json.items| && json.items[i].JObject?
    requires 0 <= k < |json.items[i].members| && json.items[i].members[k].0 !in TOP_KEYS
    ensures ValidateJsonFormat(json) != Valid
  {
    ValidIffWellFormed(json);
    assert !WellFormedEvent(json.items[i]);
  }

  /** A golfer without a string name and a numeric espn id is rejected. */
  lemma BadGolferRejected(json: Json, i: int, d: int, g: int)
    requires json.JArray? && 0 <= i < |json.items|
    requires Index(json.items[i], DATA_TO_FILL).JArray? && 0 <= d < |Index(json.items[i], DATA_TO_FILL).items|
    requires var data := Index(json.items[i], DATA_TO_FILL).items[d];
      Index(data, "golfers").JArray? && 0 <= g < |Index(data, "golfers").items| &&
      !WellFormedGolfer(Index(data, "golfers").items[g])
    ensures ValidateJsonFormat(json) != Valid
  {
    ValidIffWellFormed(json);
    assert !WellFormedData(Index(json.items[i], DATA_TO_FILL).items[d]);
    assert !WellFormedEvent(json.items[i]);
  }

  /** A bettor-golfer pair without a string bettor and a numeric golfer espn id is rejected. */
  lemma BadPairRejected(json: Json, i: int, d: int, p: int)
    requires json.JArray? && 0 <= i < |json.items|
    requires Index(json.items[i], DATA_TO_FILL).JArray? && 0 <= d < |Index(json.items[i], DATA_TO_FILL).items|
    requires var data := Index(json.items[i], DATA_TO_FILL).items[d];
      Index(data, "event_user_player").JArray? && 0 <= p < |Index(data, "event_user_player").items| &&
      !WellFormedPair(Index(data, "event_user_player").items[p])
    ensures ValidateJsonFormat(json) != Valid
  {
    ValidIffWellFormed(json);
    assert !WellFormedData(Index(json.items[i], DATA_TO_FILL).items[d]);
    assert !WellFormedEvent(json.items[i]);
  }

  /** For an event whose keys are all known, the first wrong value is reported: event before year before name before factor. */
  lemma FirstBadValueReported(e: Json)
    requires e.JObject? && |e.members| > 0 && forall k :: 0 <= k < |e.members| ==> e.members[k].0 in TOP_KEYS
    requires FieldsVerdict(e) != Valid
    ensures ValidateJsonFormat(JArray([e])) == FieldsVerdict(e)
  {
    var keys := Keys(e.members);
    assert keys[0] in TOP_KEYS;
    assert CheckKeys(keys, e) == FieldsVerdict(e);
    assert JArray([e]).items[1..] == [];
  }

  /** An event with no keys at all has no data blocks to read, and the check panics. */
  lemma EmptyEventPanics()
    ensures ValidateJsonFormat(JArray([JObject([])])) == Panics
  {
    assert [JObject([])][1..] == [];
  }
}
