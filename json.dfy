/**
 * The part of `serde_json::Value` the core reads: the value shapes and the
 * accessors `get`, `v["key"]`, `as_i64`, `as_f64`, `as_str`, `as_array`,
 * `as_object`.  An object's members are kept in serde_json's iteration order
 * (ascending key order of its default map).
 */
module Json {
  import opened Wrappers
  import opened Text

  datatype Json =
    | JNull
    | JBool(b: bool)
    | JInt(i: int)        // a number written without fraction or exponent
    | JFloat(r: real)     // any other number
    | JString(s: string)
    | JArray(items: seq<Json>)
    | JObject(members: seq<(string, Json)>)

  /** The value of the first member named key, if any. */
  function Lookup(members: seq<(string, Json)>, key: string): Option<Json> {
    if |members| == 0 then None
    else if members[0].0 == key then Some(members[0].1)
    else Lookup(members[1..], key)
  }

  /** Lookup finds a member exactly when one has that key, and returns the first one's value. */
  lemma {:induction false} LookupFinds(members: seq<(string, Json)>, key: string)
    ensures Lookup(members, key).Some? <==> exists k :: 0 <= k < |members| && members[k].0 == key
    ensures Lookup(members, key).Some? ==>
      (exists k :: 0 <= k < |members| && members[k] == (key, Lookup(members, key).value) &&
        (forall j :: 0 <= j < k ==> members[j].0 != key))
  {
    if |members| > 0 && members[0].0 != key {
      LookupFinds(members[1..], key);
      assert forall k :: 0 <= k < |members| - 1 ==> members[1..][k] == members[k + 1];
      if Lookup(members, key).Some? {
        var k :| 0 <= k < |members| - 1 && members[1..][k] == (key, Lookup(members, key).value) &&
          (forall j :: 0 <= j < k ==> members[1..][j].0 != key);
        assert members[k + 1] == (key, Lookup(members, key).value);
      }
    } else if |members| > 0 {
      assert members[0] == (key, Lookup(members, key).value);
    }
  }

  /** A member whose key no earlier member has is what Lookup returns for that key. */
  lemma {:induction false} LookupAt(members: seq<(string, Json)>, k: int)
    requires 0 <= k < |members| && forall j :: 0 <= j < k ==> members[j].0 != members[k].0
    ensures Lookup(members, members[k].0) == Some(members[k].1)
  {
    if k > 0 {
      assert members[1..][k - 1] == members[k];
      LookupAt(members[1..], k - 1);
    }
  }

  /** `value.get(key)`: None unless value is an object with that member. */
  function Get(v: Json, key: string): Option<Json> {
    if v.JObject? then Lookup(v.members, key) else None
  }

  /** `value[key]`: Null unless value is an object with that member. */
  function Index(v: Json, key: string): Json {
    Get(v, key).GetOr(JNull)
  }

  function AsI64(v: Json): Option<int> {
    if v.JInt? && I64_MIN <= v.i <= I64_MAX then Some(v.i) else None
  }

  function AsF64(v: Json): Option<real> {
    match v
    case JInt(i) => Some(i as real)
    case JFloat(r) => Some(r)
    case _ => None
  }

  function AsStr(v: Json): Option<string> {
    if v.JString? then Some(v.s) else None
  }

  function AsArray(v: Json): Option<seq<Json>> {
    if v.JArray? then Some(v.items) else None
  }

  function AsObject(v: Json): Option<seq<(string, Json)>> {
    if v.JObject? then Some(v.members) else None
  }

  predicate IsNumber(v: Json) { v.JInt? || v.JFloat? }

  /** `v.get(key).and_then(Value::as_str)` and its siblings for integers and arrays. */
  function GetStr(v: Json, key: string): Option<string> {
    if Get(v, key).Some? then AsStr(Get(v, key).value) else None
  }

  function GetI64(v: Json, key: string): Option<int> {
    if Get(v, key).Some? then AsI64(Get(v, key).value) else None
  }

  function GetArray(v: Json, key: string): Option<seq<Json>> {
    if Get(v, key).Some? then AsArray(Get(v, key).value) else None
  }

  /** Member keys of an object in iteration order. */
  function Keys(members: seq<(string, Json)>): (r: seq<string>)
    ensures |r| == |members| && forall k :: 0 <= k < |r| ==> r[k] == members[k].0
  {
    seq(|members|, k requires 0 <= k < |members| => members[k].0)
  }
}
