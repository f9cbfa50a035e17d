/**
 * Tab completion of item lists in the REPL prompt
 * (rusty-golf-setup/src/repl/complete.rs): the ids offered are those not
 * already typed that start with the token under the cursor.
 */
module ReplComplete {
  import opened Wrappers
  import opened Text
  import opened ReplParse

  /** `rfind`: the index of the last character satisfying p. */
  function RFind(s: string, p: char -> bool): (r: Option<nat>)
    ensures r.None? <==> NoneMatch(s, p)
    ensures r.Some? ==> r.value < |s| && p(s[r.value]) && forall m :: r.value < m < |s| ==> !p(s[m])
  {
    if |s| == 0 then None
    else if p(s[|s| - 1]) then Some(|s| - 1)
    else RFind(s[..|s| - 1], p)
  }

  /** `rsplit(p).next()`: the text after the last character satisfying p, or all of s when none does. */
  function RSplitFirst(s: string, p: char -> bool): string {
    if |s| == 0 then ""
    else if p(s[|s| - 1]) then ""
    else RSplitFirst(s[..|s| - 1], p) + [s[|s| - 1]]
  }

  /** `current_token_prefix`: the first piece `rsplit` yields. */
  function CurrentTokenPrefix(input: string): string {
    RSplitFirst(input, IsSeparator)
  }

  /** `token_start_index`: just after the last separator, or 0. */
  function TokenStartIndex(input: string): (start: nat)
    ensures start <= |input|
  {
    match RFind(input, IsSeparator)
    case None => 0
    case Some(idx) => idx + 1
  }

  /** The current token is exactly the text from the token start to the end. */
  lemma {:induction false} TokenIsTail(input: string)
    ensures CurrentTokenPrefix(input) == input[TokenStartIndex(input)..]
    ensures NoneMatch(CurrentTokenPrefix(input), IsSeparator)
  {
    if |input| > 0 {
      var n := |input| - 1;
      var init := input[..n];
      TokenIsTail(init);
      if !IsSeparator(input[n]) {
        var start := TokenStartIndex(init);
        assert TokenStartIndex(input) == start;
        assert init[start..] + [input[n]] == input[start..];
      }
    }
  }

  /** The ids, in order, that are not selected and start with the token. */
  function Candidates(ids: seq<string>, selected: set<string>, token: string): (r: seq<string>)
    ensures |r| <= |ids|
    ensures forall i :: 0 <= i < |r| ==> r[i] in ids && r[i] !in selected && StartsWith(r[i], token)
    ensures forall i :: 0 <= i < |ids| && ids[i] !in selected && StartsWith(ids[i], token) ==> ids[i] in r
  {
    if |ids| == 0 then []
    else (if ids[0] !in selected && StartsWith(ids[0], token) then [ids[0]] else []) + Candidates(ids[1..], selected, token)
  }

  /** Filtering keeps the ids' order: the candidates of a concatenation are the candidates of each part. */
  lemma {:induction false} CandidatesAppend(a: seq<string>, b: seq<string>, selected: set<string>, token: string)
    ensures Candidates(a + b, selected, token) == Candidates(a, selected, token) + Candidates(b, selected, token)
  {
    if |a| == 0 {
      assert a + b == b;
    } else {
      assert (a + b)[1..] == a[1..] + b;
      CandidatesAppend(a[1..], b, selected, token);
    }
  }

  /** The items typed so far, as a set. */
  function Selected(prefix: string): set<string> {
    var items := SplitItems(prefix);
    set i | 0 <= i < |items| :: items[i]
  }

  /**
   * `complete_items_prompt`: where the replacement starts and the
   * candidates. Slicing the line at `pos` requires `pos` to lie within it.
   */
  function CompleteItemsPrompt(line: string, pos: nat, ids: seq<string>): (r: (nat, seq<string>))
    requires pos <= |line|
    ensures r.0 <= pos && line[r.0..pos] == CurrentTokenPrefix(line[..pos])
    ensures r.1 == Candidates(ids, Selected(line[..pos]), CurrentTokenPrefix(line[..pos]))
    ensures CurrentTokenPrefix(line[..pos]) == [] ==> r.0 == pos
  {
    var prefix := line[..pos];
    var currentToken := CurrentTokenPrefix(prefix);
    var candidates := Candidates(ids, Selected(prefix), currentToken);
    var start := TokenStartIndex(prefix);
    TokenIsTail(prefix);
    assert line[start..pos] == prefix[start..];
    if currentToken == [] then (pos, candidates) else (start, candidates)
  }

  /** An id already typed, as a complete item, is never offered again. */
  lemma TypedItemsNotOffered(line: string, pos: nat, ids: seq<string>, i: int)
    requires pos <= |line| && 0 <= i < |SplitItems(line[..pos])|
    ensures SplitItems(line[..pos])[i] !in CompleteItemsPrompt(line, pos, ids).1
  {
    assert SplitItems(line[..pos])[i] in Selected(line[..pos]);
  }
}
