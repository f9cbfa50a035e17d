/**
 * Splitting a REPL argument into items (rusty-golf-setup/src/repl/parse.rs):
 * commas count as spaces, and the items are the runs of everything else.
 */
module ReplParse {
  import opened Text

  /** Item separators: a comma or white space. */
  predicate IsSeparator(c: char) { c == ',' || IsWhitespace(c) }

  predicate IsComma(c: char) { c == ',' }

  /** `replace(',', " ")`. */
  function CommasToSpaces(s: string): (r: string)
    ensures |r| == |s| && forall i :: 0 <= i < |s| ==> r[i] == (if s[i] == ',' then ' ' else s[i])
  {
    seq(|s|, i requires 0 <= i < |s| => if s[i] == ',' then ' ' else s[i])
  }

  /** `split_items`. */
  function SplitItems(input: string): seq<string> {
    NonEmpty(Words(CommasToSpaces(input)))
  }

  /** No item is empty, and none holds a comma or white space. */
  lemma ItemsAreClean(input: string)
    ensures forall i :: 0 <= i < |SplitItems(input)| ==>
      (SplitItems(input)[i] != [] && NoneMatch(SplitItems(input)[i], IsSeparator))
  {
    var n := CommasToSpaces(input);
    SplitByKeeps(n, IsWhitespace, IsComma);
    var pieces := SplitBy(n, IsWhitespace);
    forall i | 0 <= i < |pieces|
      ensures NoneMatch(pieces[i], IsSeparator)
    {
      assert NoneMatch(pieces[i], IsComma);
    }
    NonEmptyKeeps(pieces, IsSeparator);
    NonEmptyKeeps(Words(n), IsSeparator);
  }

  /** Clean items joined with spaces split back into the same items. */
  lemma SplitJoinedItems(items: seq<string>)
    requires forall i :: 0 <= i < |items| ==> items[i] != [] && NoneMatch(items[i], IsSeparator)
    ensures SplitItems(Join(items, " ")) == items
  {
    if |items| == 0 {
      assert SplitBy("", IsWhitespace) == [""];
    } else {
      CleanItemsJoin(items);
      WordsOfJoin(items);
      NonEmptyKeepsNonEmpty(items);
    }
  }

  /** Clean items joined with spaces hold no comma, and each item holds no white space. */
  lemma CleanItemsJoin(items: seq<string>)
    requires forall i :: 0 <= i < |items| ==> items[i] != [] && NoneMatch(items[i], IsSeparator)
    ensures CommasToSpaces(Join(items, " ")) == Join(items, " ")
    ensures forall i :: 0 <= i < |items| ==> items[i] != [] && NoneMatch(items[i], IsWhitespace)
  {
    forall i | 0 <= i < |items|
      ensures NoneMatch(items[i], IsComma) && NoneMatch(items[i], IsWhitespace)
    {
    }
    JoinKeeps(items, " ", IsComma);
  }

  /** Splitting is idempotent: the items joined with spaces split into the same items. */
  lemma SplitItemsIdempotent(input: string)
    ensures SplitItems(Join(SplitItems(input), " ")) == SplitItems(input)
  {
    ItemsAreClean(input);
    SplitJoinedItems(SplitItems(input));
  }

  /** Input made only of separators has no items. */
  lemma SeparatorsOnly(input: string)
    requires forall i :: 0 <= i < |input| ==> IsSeparator(input[i])
    ensures SplitItems(input) == []
  {
    var n := CommasToSpaces(input);
    SplitSeparatorsOnly(n, IsWhitespace);
    NonEmptyOfEmpties(SplitBy(n, IsWhitespace));
  }
}
