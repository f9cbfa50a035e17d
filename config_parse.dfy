/**
 * Reading the setup tool's configuration values (setup/src/config/parse.rs):
 * the comma-separated list of auth tokens, and the golfers-by-bettor list.
 */
module ConfigParse {
  import opened Wrappers
  import opened Text

  predicate IsComma(c: char) { c == ',' }

  /** The tokens of the value: split on ',', each trimmed, the empty ones dropped. */
  function Tokens(value: string): seq<string> {
    NonEmpty(TrimAll(SplitBy(value, IsComma)))
  }

  /** A token is long enough and printable. */
  predicate TokenValid(t: string) {
    |t| >= 8 && NoneMatch(t, IsControl)
  }

  const EMPTY_TOKENS: string := "auth tokens list is empty"
  const SHORT_TOKEN: string := "auth token must be at least 8 characters"
  const CONTROL_IN_TOKEN: string := "auth token contains non-printable characters"

  /** The message for an invalid token: its length is checked before its characters. */
  function TokenError(t: string): string {
    if |t| < 8 then SHORT_TOKEN else CONTROL_IN_TOKEN
  }

  /**
   * `parse_auth_tokens`: the tokens when there is at least one and all are
   * valid; otherwise the error for an empty list, or for the first invalid
   * token.
   */
  method ParseAuthTokens(value: string) returns (r: Result<seq<string>, string>)
    ensures var ts := Tokens(value);
      && (ts == [] ==> r == Err(EMPTY_TOKENS))
      && (ts != [] ==> (r.Ok? <==> forall i :: 0 <= i < |ts| ==> TokenValid(ts[i])))
      && (r.Ok? ==> r.value == ts)
      && (ts != [] && r.Err? ==> exists i :: FirstInvalid(ts, i) && r.error == TokenError(ts[i]))
  {
    var tokens := Tokens(value);
    if tokens == [] {
      return Err(EMPTY_TOKENS);
    }
    var error := CheckTokens(tokens);
    if error.Some? {
      return Err(error.value);
    }
    return Ok(tokens);
  }

  /** The validation loop: the error for the first invalid token, if any. */
  method CheckTokens(tokens: seq<string>) returns (error: Option<string>)
    ensures error.None? <==> forall i :: 0 <= i < |tokens| ==> TokenValid(tokens[i])
    ensures error.Some? ==> exists i :: FirstInvalid(tokens, i) && error.value == TokenError(tokens[i])
  {
    for k := 0 to |tokens|
      invariant forall j :: 0 <= j < k ==> TokenValid(tokens[j])
    {
      var token := tokens[k];
      if |token| < 8 {
        assert FirstInvalid(tokens, k);
        return Some(SHORT_TOKEN);
      }
      var hasControl := exists j :: 0 <= j < |token| && IsControl(token[j]);
      if hasControl {
        assert FirstInvalid(tokens, k);
        return Some(CONTROL_IN_TOKEN);
      }
    }
    return None;
  }

  /** Token i is the first invalid one. */
  predicate FirstInvalid(ts: seq<string>, i: int) {
    0 <= i < |ts| && !TokenValid(ts[i]) && forall j :: 0 <= j < i ==> TokenValid(ts[j])
  }

  /** Every token is non-empty, trimmed and free of commas. */
  lemma TokensShape(value: string)
    ensures forall i :: 0 <= i < |Tokens(value)| ==>
      (Tokens(value)[i] != [] && IsTrimmed(Tokens(value)[i]) && NoneMatch(Tokens(value)[i], IsComma))
  {
    var pieces := SplitBy(value, IsComma);
    var trimmed := TrimAll(pieces);
    forall i | 0 <= i < |trimmed|
      ensures IsTrimmed(trimmed[i]) && NoneMatch(trimmed[i], IsComma)
    {
      TrimKeepsNoneMatch(pieces[i], IsComma);
    }
    forall i | 0 <= i < |Tokens(value)|
      ensures IsTrimmed(Tokens(value)[i]) && NoneMatch(Tokens(value)[i], IsComma)
    {
      var k :| 0 <= k < |trimmed| && trimmed[k] == Tokens(value)[i];
    }
  }

  lemma TrimKeepsNoneMatch(s: string, q: char -> bool)
    requires NoneMatch(s, q)
    ensures NoneMatch(Trim(s), q)
  {
    SliceKeepsNoneMatch(s, |s| - |TrimStart(s)|, |s|, q);
    var t := TrimStart(s);
    SliceKeepsNoneMatch(t, 0, |TrimEnd(t)|, q);
  }

  lemma SliceKeepsNoneMatch(s: string, lo: int, hi: int, q: char -> bool)
    requires NoneMatch(s, q) && 0 <= lo <= hi <= |s|
    ensures NoneMatch(s[lo..hi], q)
  {
    assert forall i :: 0 <= i < hi - lo ==> s[lo..hi][i] == s[lo + i];
  }

  /** Tokens written out comma-separated read back as themselves. */
  lemma TokensRoundTrip(ts: seq<string>)
    requires |ts| >= 1
    requires forall i :: 0 <= i < |ts| ==> ts[i] != [] && IsTrimmed(ts[i]) && NoneMatch(ts[i], IsComma)
    ensures Tokens(Join(ts, ",")) == ts
  {
    SplitJoin(ts, ',', IsComma);
    forall i | 0 <= i < |ts|
      ensures Trim(ts[i]) == ts[i]
    {
      TrimOfTrimmed(ts[i]);
    }
    assert TrimAll(ts) == ts;
    NonEmptyKeepsNonEmpty(ts);
  }

  /** `parse_golfers_by_bettor`, with the JSON decoding passed in: a decoding error or an empty list is an error. */
  function ParseGolfersByBettor<G>(decoded: Result<seq<G>, string>): (r: Result<seq<G>, string>)
    ensures r.Ok? <==> decoded.Ok? && |decoded.value| > 0
    ensures r.Ok? ==> r.value == decoded.value
    ensures decoded.Ok? && |decoded.value| == 0 ==> r == Err("golfers-by-bettor list is empty")
  {
    match decoded
    case Err(e) => Err("parse golfers-by-bettor JSON: " + e)
    case Ok(entries) =>
      if |entries| == 0 then Err("golfers-by-bettor list is empty") else Ok(entries)
  }
}
