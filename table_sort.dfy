/**
 * The score table's client-side sort (`sortTable`, `isDate`, `parseDate`,
 * `isNumeric` in static/tablesort.js).
 *
 * A table is an array of rows, each row the texts of its cells; rows 0 and 1
 * are the two header rows, rows 2.. hold the data.  A click on the sortable
 * header number n (1-based) sorts by the data cell n + 1 (the first two data
 * cells are the player and the pick) with a bubble sort that swaps the first
 * out-of-order adjacent pair and rescans from the top.
 */
module TableSort {
  import opened Wrappers
  import opened Text
  import opened Bubble

  datatype Dir = Asc | Desc

  // ---------------------------------------------------------------------------
  // Value classifier: dates

  /** Number of consecutive digits in s starting at i. */
  function DigitRun(s: string, i: nat): (n: nat)
    requires i <= |s|
    ensures i + n <= |s|
    ensures forall k :: i <= k < i + n ==> IsDigit(s[k])
    ensures i + n == |s| || !IsDigit(s[i + n])
    decreases |s| - i
  {
    if i < |s| && IsDigit(s[i]) then 1 + DigitRun(s, i + 1) else 0
  }

  /** The four numbers and the am/pm flag of a `M/D H:MMam` match. */
  datatype DateParts = DateParts(month: nat, day: nat, hour: nat, minute: nat, pm: bool)

  predicate IsMeridiem(s: string, i: nat, first: char)
    requires i + 2 <= |s|
  {
    LowerChar(s[i]) == first && LowerChar(s[i + 1]) == 'm'
  }

  /**
   * The regular expression `(\d+)\/(\d+) (\d+):(\d+)(am|pm)` (case-insensitive)
   * tried at position i.  Each `\d+` is followed by a non-digit, so the greedy
   * run of digits is the only way the group can match.
   */
  function MatchDateAt(s: string, i: nat): (r: Option<DateParts>)
    requires i <= |s|
  {
    var n1 := DigitRun(s, i);
    var j := i + n1;
    if n1 == 0 || j >= |s| || s[j] != '/' then None
    else
      var n2 := DigitRun(s, j + 1);
      var k := j + 1 + n2;
      if n2 == 0 || k >= |s| || s[k] != ' ' then None
      else
        var n3 := DigitRun(s, k + 1);
        var l := k + 1 + n3;
        if n3 == 0 || l >= |s| || s[l] != ':' then None
        else
          var n4 := DigitRun(s, l + 1);
          var m := l + 1 + n4;
          if n4 == 0 || m + 2 > |s| then None
          else if !IsMeridiem(s, m, 'a') && !IsMeridiem(s, m, 'p') then None
          else Some(DateParts(
            DigitsValue(s[i..j]), DigitsValue(s[j + 1..k]),
            DigitsValue(s[k + 1..l]), DigitsValue(s[l + 1..m]),
            IsMeridiem(s, m, 'p')))
  }

  /** The leftmost match of the date pattern at or after position i (`String.match`). */
  function FindDate(s: string, i: nat): Option<DateParts>
    requires i <= |s|
    decreases |s| - i
  {
    if i == |s| then None
    else if MatchDateAt(s, i).Some? then MatchDateAt(s, i)
    else FindDate(s, i + 1)
  }

  /** `isDate`: the cell contains a `M/D H:MMam|pm` timestamp. */
  predicate IsDate(s: string) {
    FindDate(s, 0).Some?
  }

  /** The 24-hour clock hour `parseDate` computes from a 12-hour clock hour. */
  function Hour24(hour: nat, pm: bool): (h: nat)
    ensures !pm && hour == 12 ==> h == 0
    ensures pm && hour < 12 ==> h == hour + 12
    ensures (pm && hour >= 12) || (!pm && hour != 12) ==> h == hour
  {
    if pm && hour < 12 then hour + 12
    else if !pm && hour == 12 then 0
    else hour
  }

  /** The instant `parseDate` builds, as (month index, day, hour, minute) in the current year. */
  datatype Instant = Instant(month: int, day: int, hour: int, minute: int)

  function ParseDate(s: string): Instant
    requires IsDate(s)
  {
    var p := FindDate(s, 0).value;
    Instant(p.month - 1, p.day, Hour24(p.hour, p.pm), p.minute)
  }

  predicate Before(a: Instant, b: Instant) {
    a.month < b.month
    || (a.month == b.month && a.day < b.day)
    || (a.month == b.month && a.day == b.day && a.hour < b.hour)
    || (a.month == b.month && a.day == b.day && a.hour == b.hour && a.minute < b.minute)
  }

  // ---------------------------------------------------------------------------
  // Value classifier: numbers

  function Pow10(k: nat): (p: nat)
    ensures p >= 1
  {
    if k == 0 then 1 else 10 * Pow10(k - 1)
  }

  /**
   * A decimal literal `[+-]?digits[.digits]` or `[+-]?.digits`: the strings that
   * both `parseFloat` and `isFinite` read completely, with their exact value.
   */
  function ParseDecimal(s: string): Option<real> {
    var neg := |s| > 0 && s[0] == '-';
    var body := if |s| > 0 && (s[0] == '-' || s[0] == '+') then s[1..] else s;
    var ip := DigitRun(body, 0);
    if ip == |body| then
      if ip == 0 then None
      else Some(Signed(neg, DigitsValue(body) as real))
    else if body[ip] != '.' then None
    else
      var frac := body[ip + 1..];
      if !AllDigits(frac) || (ip == 0 && |frac| == 0) then None
      else
        var whole := body[..ip] + frac;
        assert AllDigits(whole);
        Some(Signed(neg, DigitsValue(whole) as real / Pow10(|frac|) as real))
  }

  function Signed(neg: bool, v: real): real {
    if neg then -v else v
  }

  /** `isNumeric`: `parseFloat` is not NaN and `isFinite` holds. */
  predicate IsNumeric(s: string) {
    ParseDecimal(s).Some?
  }

  function NumberValue(s: string): real
    requires IsNumeric(s)
  {
    ParseDecimal(s).value
  }

  // ---------------------------------------------------------------------------
  // Row comparator

  /**
   * The ascending test of the scan: x sorts after y.  Two dates compare as
   * instants, two numbers as numbers, and any pair without a date as lower-cased
   * text; a date next to a non-date is never out of order.
   */
  predicate After(x: string, y: string) {
    if IsDate(x) && IsDate(y) then Before(ParseDate(y), ParseDate(x))
    else if IsNumeric(x) && IsNumeric(y) then NumberValue(y) < NumberValue(x)
    else if !IsDate(x) && !IsDate(y) then Less(Lower(y), Lower(x))
    else false
  }

  /** `shouldSwitch` for the adjacent cells x (upper) and y (lower). */
  predicate ShouldSwap(x: string, y: string, dir: Dir) {
    if dir == Asc then After(x, y) else After(y, x)
  }

  /** The swap test is asymmetric: two cells are never out of order both ways. */
  lemma AfterAsymmetric(x: string, y: string)
    requires After(x, y)
    ensures !After(y, x)
  {
    if !IsDate(x) && !IsDate(y) && !(IsNumeric(x) && IsNumeric(y)) {
      LessAsymmetric(Lower(y), Lower(x));
    }
  }

  // ---------------------------------------------------------------------------
  // Rows and the sort outcome

  type Row = seq<string>

  /**
   * The compared text of cell `col` of a row: its `innerHTML` with white space
   * trimmed at both ends (the source requires the cell to exist).
   */
  function Key(r: Row, col: nat): string {
    if col < |r| then Trim(r[col]) else ""
  }

  /** Row a above row b must be swapped when sorting by cell col in direction dir. */
  function RowOut(col: nat, dir: Dir): (Row, Row) -> bool {
    (a: Row, b: Row) => ShouldSwap(Key(a, col), Key(b, col), dir)
  }

  lemma RowOutAsymmetric(col: nat, dir: Dir)
    ensures Asymmetric(RowOut(col, dir))
  {
    forall a: Row, b: Row | RowOut(col, dir)(a, b) ensures !RowOut(col, dir)(b, a) {
      if dir == Asc { AfterAsymmetric(Key(a, col), Key(b, col)); }
      else { AfterAsymmetric(Key(b, col), Key(a, col)); }
    }
  }

  /**
   * The data rows and the direction after a click with initial direction dir:
   * the restart-after-swap sort, except that a table already ascending is
   * sorted descending instead.
   */
  function SortOutcome(body: seq<Row>, col: nat, dir: Dir): (seq<Row>, Dir) {
    RowOutAsymmetric(col, dir);
    RowOutAsymmetric(col, Desc);
    if dir == Asc && Settled(body, RowOut(col, Asc)) then (Settle(body, RowOut(col, Desc)), Desc)
    else (Settle(body, RowOut(col, dir)), dir)
  }

  /**
   * The outcome of a click: the rows are a permutation of the data rows, no
   * adjacent pair is out of order, and the direction is Desc exactly when the
   * header said "asc" or the rows were already ascending.
   */
  lemma SortOutcomeCorrect(body: seq<Row>, col: nat, dir: Dir)
    ensures multiset(SortOutcome(body, col, dir).0) == multiset(body)
    ensures Settled(SortOutcome(body, col, dir).0, RowOut(col, SortOutcome(body, col, dir).1))
    ensures SortOutcome(body, col, dir).1 == Desc <==> dir == Desc || Settled(body, RowOut(col, Asc))
  {
    var d := SortOutcome(body, col, dir).1;
    RowOutAsymmetric(col, d);
    SettlePermutes(body, RowOut(col, d));
    SettleIsSettled(body, RowOut(col, d));
  }

  /** Rows already in order for the requested direction "desc" stay where they are. */
  lemma SortOutcomeKeepsSettledDesc(body: seq<Row>, col: nat)
    requires Settled(body, RowOut(col, Desc))
    ensures SortOutcome(body, col, Desc) == (body, Desc)
  {
    RowOutAsymmetric(col, Desc);
    SettleOfSettled(body, RowOut(col, Desc));
  }

  // ---------------------------------------------------------------------------
  // Dates and numbers are disjoint

  lemma {:induction false} FindDateHasSlash(s: string, i: nat)
    requires i <= |s| && FindDate(s, i).Some?
    ensures exists k :: 0 <= k < |s| && s[k] == '/'
    decreases |s| - i
  {
    if MatchDateAt(s, i).Some? {
      assert s[i + DigitRun(s, i)] == '/';
    } else {
      FindDateHasSlash(s, i + 1);
    }
  }

  lemma DecimalHasNoSlash(s: string)
    requires ParseDecimal(s).Some?
    ensures forall k :: 0 <= k < |s| ==> s[k] != '/'
  {
    var body := if |s| > 0 && (s[0] == '-' || s[0] == '+') then s[1..] else s;
    var ip := DigitRun(body, 0);
    forall k | 0 <= k < |body| ensures body[k] != '/' {
      if ip < |body| && k > ip {
        assert body[k] == body[ip + 1..][k - ip - 1];
      }
    }
  }

  /** No cell is both a date and a number. */
  lemma DateIsNotNumeric(s: string)
    requires IsDate(s)
    ensures !IsNumeric(s)
  {
    FindDateHasSlash(s, 0);
    if IsNumeric(s) { DecimalHasNoSlash(s); }
  }

  /** One date and one non-date cell are never swapped, in either direction. */
  lemma DateNextToNonDateNeverSwaps(x: string, y: string, dir: Dir)
    requires IsDate(x) != IsDate(y)
    ensures !ShouldSwap(x, y, dir)
  {
    if IsDate(x) { DateIsNotNumeric(x); } else { DateIsNotNumeric(y); }
  }

  // ---------------------------------------------------------------------------
  // Sortedness when every cell of the column has one kind

  /** The three comparison kinds of the comparator. */
  datatype Kind = DateKind | NumberKind | TextKind

  predicate HasKind(x: string, k: Kind) {
    match k
    case DateKind => IsDate(x)
    case NumberKind => IsNumeric(x)
    case TextKind => !IsDate(x) && !IsNumeric(x)
  }

  lemma NotAfterTransitive(x: string, y: string, z: string, k: Kind)
    requires HasKind(x, k) && HasKind(y, k) && HasKind(z, k)
    requires !After(x, y) && !After(y, z)
    ensures !After(x, z)
  {
    if k == NumberKind {
      if IsDate(x) { DateIsNotNumeric(x); }
      if IsDate(y) { DateIsNotNumeric(y); }
      if IsDate(z) { DateIsNotNumeric(z); }
    } else if k == TextKind {
      var a, b, c := Lower(x), Lower(y), Lower(z);
      LessTotal(a, b);
      LessTotal(b, c);
      if Less(c, a) {
        if a != b && b != c { LessTransitive(a, b, c); LessAsymmetric(a, c); }
      }
    }
  }

  predicate OneKind(s: seq<Row>, col: nat, k: Kind) {
    forall i :: 0 <= i < |s| ==> HasKind(Key(s[i], col), k)
  }

  lemma OneKindTransitive(s: seq<Row>, col: nat, dir: Dir, k: Kind)
    requires OneKind(s, col, k)
    ensures InOrderTransitive(s, RowOut(col, dir))
  {
    forall i, j, l | 0 <= i < |s| && 0 <= j < |s| && 0 <= l < |s| &&
      !RowOut(col, dir)(s[i], s[j]) && !RowOut(col, dir)(s[j], s[l])
      ensures !RowOut(col, dir)(s[i], s[l])
    {
      var x, y, z := Key(s[i], col), Key(s[j], col), Key(s[l], col);
      if dir == Asc { NotAfterTransitive(x, y, z, k); } else { NotAfterTransitive(z, y, x, k); }
    }
  }

  lemma {:induction false} OneKindPermutation(s: seq<Row>, t: seq<Row>, col: nat, k: Kind)
    requires multiset(s) == multiset(t) && OneKind(s, col, k)
    ensures OneKind(t, col, k)
  {
    forall i | 0 <= i < |t| ensures HasKind(Key(t[i], col), k) {
      assert t[i] in multiset(t);
      var j :| 0 <= j < |s| && s[j] == t[i];
    }
  }

  /**
   * When every cell of the column is a date, or every one a number, or every
   * one plain text, the click leaves the data rows fully sorted.
   */
  lemma SortOutcomeSortedWhenOneKind(body: seq<Row>, col: nat, dir: Dir, k: Kind)
    requires OneKind(body, col, k)
    ensures Sorted(SortOutcome(body, col, dir).0, RowOut(col, SortOutcome(body, col, dir).1))
  {
    var (r, d) := SortOutcome(body, col, dir);
    SortOutcomeCorrect(body, col, dir);
    OneKindPermutation(body, r, col, k);
    OneKindTransitive(r, col, d, k);
    SettledSorted(r, RowOut(col, d));
  }

  /**
   * Mixed numbers and text need not end sorted: 2 < 10 as numbers, "10" < "1a"
   * and "1a" < "2" as text, so ["10", "1a", "2"] has no adjacent pair out of
   * order although its first and last cells are.
   */
  lemma MixedColumnCanStayUnsorted()
    ensures var s: seq<Row> := [["10"], ["1a"], ["2"]];
      Settled(s, RowOut(0, Asc)) && !Sorted(s, RowOut(0, Asc))
  {
    var s: seq<Row> := [["10"], ["1a"], ["2"]];
    SampleAfter();
    SamplesTrimmed();
    RowOutOfCells("10", "1a");
    RowOutOfCells("1a", "2");
    RowOutOfCells("10", "2");
    ThreeRows(["10"], ["1a"], ["2"], RowOut(0, Asc));
  }

  lemma SamplesTrimmed()
    ensures Trim("10") == "10" && Trim("1a") == "1a" && Trim("2") == "2"
  {
    TrimOfTrimmed("10");
    TrimOfTrimmed("1a");
    TrimOfTrimmed("2");
  }

  lemma RowOutOfCells(x: string, y: string)
    ensures RowOut(0, Asc)([x], [y]) == After(Trim(x), Trim(y))
  {
  }

  /**
   * Cells are compared after trimming: " 10" above "2" is out of order as the
   * numbers 10 and 2, although untrimmed " 10" is neither a number nor after "2".
   */
  lemma PaddedCellsCompareTrimmed()
    ensures RowOut(0, Asc)([" 10"], ["2"])
    ensures !After(" 10", "2")
  {
    SampleAfter();
    SamplesTrimmed();
    PaddedTenTrims();
    RowOutOfCells(" 10", "2");
    PaddedTenIsText();
  }

  lemma PaddedTenTrims()
    ensures Trim(" 10") == "10"
  {
    var s := " 10";
    assert s[1..] == "10";
    OneLeadingBlank(s);
  }

  lemma OneLeadingBlank(s: string)
    requires |s| > 1 && IsWhitespace(s[0]) && !IsWhitespace(s[1]) && !IsWhitespace(s[|s| - 1])
    ensures Trim(s) == s[1..]
  {
    assert TrimStart(s) == TrimStart(s[1..]);
    assert TrimStart(s[1..]) == s[1..];
  }

  lemma PaddedTenIsText()
    ensures !After(" 10", "2")
  {
    PaddedTenNotDate();
    assert ParseDecimal(" 10") == None;
    assert Lower(" 10") == " 10" && Lower("2") == "2";
    assert !Less("2", " 10");
  }

  lemma PaddedTenNotDate()
    ensures !IsDate(" 10")
  {
    assert MatchDateAt(" 10", 0).None? && MatchDateAt(" 10", 1).None? && MatchDateAt(" 10", 2).None?;
  }

  /** Three rows, each pair of neighbours in order but the outer pair not. */
  lemma ThreeRows(a: Row, b: Row, c: Row, out: (Row, Row) -> bool)
    requires !out(a, b) && !out(b, c) && out(a, c)
    ensures Settled([a, b, c], out) && !Sorted([a, b, c], out)
  {
    var s := [a, b, c];
    assert out(s[0], s[2]);
  }

  /** How the scan compares the three sample cells. */
  lemma SampleAfter()
    ensures !After("10", "1a") && !After("1a", "2") && After("10", "2")
  {
    SampleKinds();
    SampleTextOrder();
  }

  lemma SampleKinds()
    ensures !IsDate("10") && !IsDate("1a") && !IsDate("2")
    ensures ParseDecimal("10") == Some(10.0) && ParseDecimal("2") == Some(2.0)
    ensures ParseDecimal("1a") == None
  {
    SampleDates();
    SampleNumbers();
  }

  lemma SampleDates()
    ensures !IsDate("10") && !IsDate("1a") && !IsDate("2")
  {
    assert MatchDateAt("10", 0).None? && MatchDateAt("10", 1).None?;
    assert MatchDateAt("1a", 0).None? && MatchDateAt("1a", 1).None?;
    assert MatchDateAt("2", 0).None?;
  }

  lemma SampleNumbers()
    ensures ParseDecimal("10") == Some(10.0) && ParseDecimal("2") == Some(2.0)
    ensures ParseDecimal("1a") == None
  {
    SampleTen();
    SampleTwo();
    SampleOneA();
  }

  lemma SampleTen()
    ensures ParseDecimal("10") == Some(10.0)
  {
    assert DigitRun("10", 0) == 2;
    assert DigitsValue("10") == 10 by { assert "10"[..1] == "1"; }
  }

  lemma SampleTwo()
    ensures ParseDecimal("2") == Some(2.0)
  {
    assert DigitRun("2", 0) == 1;
  }

  lemma SampleOneA()
    ensures ParseDecimal("1a") == None
  {
    assert DigitRun("1a", 0) == 1;
  }

  lemma SampleTextOrder()
    ensures Less(Lower("10"), Lower("1a")) && Less(Lower("1a"), Lower("2"))
  {
    assert Lower("10") == "10" && Lower("1a") == "1a" && Lower("2") == "2";
    assert Less("0", "a");
  }

  // ---------------------------------------------------------------------------
  // The header row and the table

  /** A cell of the second header row: is it `th.sortable`, its `data-sort-dir`, its sort classes. */
  datatype HeaderCell = HeaderCell(sortable: bool, sortDir: Option<Dir>, sortClasses: set<Dir>)

  /** The direction a click picks: "desc" only when the header says "asc". */
  function NewDir(h: HeaderCell): (d: Dir)
    ensures d == Desc <==> h.sortDir == Some(Asc)
  {
    if h.sortDir == Some(Asc) then Desc else Asc
  }

  /** Every `th.sortable` loses its sort classes and attribute; then the clicked cell gets dir. */
  function MarkHeader(header: seq<HeaderCell>, c: nat, dir: Dir): (r: seq<HeaderCell>)
    requires c < |header|
    ensures |r| == |header|
  {
    var cleared := seq(|header|, k requires 0 <= k < |header| =>
      if header[k].sortable then header[k].(sortDir := None, sortClasses := {}) else header[k]);
    cleared[c := cleared[c].(sortDir := Some(dir), sortClasses := cleared[c].sortClasses + {dir})]
  }

  /** When every header cell is sortable, only the clicked one carries a direction afterwards. */
  lemma MarkHeaderOnlyClicked(header: seq<HeaderCell>, c: nat, dir: Dir)
    requires c < |header|
    requires forall k :: 0 <= k < |header| ==> header[k].sortable
    ensures forall k :: 0 <= k < |header| && k != c ==>
      MarkHeader(header, c, dir)[k].sortDir == None && MarkHeader(header, c, dir)[k].sortClasses == {}
    ensures MarkHeader(header, c, dir)[c].sortDir == Some(dir)
    ensures MarkHeader(header, c, dir)[c].sortClasses == {dir}
  {
  }

  /**
   * What the remaining passes will produce from body: the full outcome while
   * the first pass of an ascending sort is pending, else the plain sort.
   */
  function Pending(body: seq<Row>, col: nat, dir: Dir, first: bool): (seq<Row>, Dir) {
    if first then SortOutcome(body, col, Asc)
    else
      RowOutAsymmetric(col, dir);
      (Settle(body, RowOut(col, dir)), dir)
  }

  /** One pass that swaps the first out-of-order pair does not change the outcome. */
  lemma SwapStep(body: seq<Row>, col: nat, dir: Dir, first: bool, i: nat)
    requires i + 1 < |body| && FirstInversion(body, RowOut(col, dir)) == i
    requires first ==> dir == Asc
    ensures Asymmetric(RowOut(col, dir))
    ensures Pending(body, col, dir, first) == Pending(SwapAt(body, i), col, dir, false)
  {
    RowOutAsymmetric(col, dir);
    FirstInversionSettled(body, RowOut(col, dir));
  }

  /** A pass that finds nothing: either the sort is over, or an ascending table flips. */
  lemma QuietStep(body: seq<Row>, col: nat, dir: Dir, first: bool)
    requires FirstInversion(body, RowOut(col, dir)) == |body|
    requires first ==> dir == Asc
    ensures first ==> Pending(body, col, dir, first) == Pending(body, col, Desc, false)
    ensures !first ==> Pending(body, col, dir, first) == (body, dir)
  {
    RowOutAsymmetric(col, dir);
    RowOutAsymmetric(col, Desc);
    FirstInversionSettled(body, RowOut(col, dir));
    if !first { SettleOfSettled(body, RowOut(col, dir)); }
  }

  class ScoresTable {
    /** The cells of `table.rows[1]`, the row of sortable column headers. */
    var header: seq<HeaderCell>
    /** The text of every row's TD cells; rows 0 and 1 are the header rows. */
    var rows: array<Row>

    constructor (header: seq<HeaderCell>, rows: array<Row>)
      ensures this.header == header && this.rows == rows
    {
      this.header := header;
      this.rows := rows;
    }

    /**
     * The scan of one pass: the first index i >= 2 whose row and the next are
     * out of order, or rows.Length when there is none.
     */
    method FindSwap(col: nat, dir: Dir) returns (i: int)
      requires rows.Length >= 2
      ensures i == 2 + FirstInversion(rows[2..], RowOut(col, dir))
    {
      ghost var body := rows[2..];
      i := 2;
      while i < rows.Length - 1
        invariant 2 <= i <= rows.Length
        invariant FirstInversionFrom(body, RowOut(col, dir), i - 2) == FirstInversion(body, RowOut(col, dir))
      {
        assert rows[i] == body[i - 2] && rows[i + 1] == body[i - 1];
        if ShouldSwap(Key(rows[i], col), Key(rows[i + 1], col), dir) {
          return;
        }
        i := i + 1;
      }
      i := rows.Length;
    }

    /** `insertBefore(rows[i + 1], rows[i])`: the two rows trade places. */
    method SwapRows(i: int)
      requires 2 <= i < rows.Length - 1
      modifies rows
      ensures rows[..2] == old(rows[..2])
      ensures rows[2..] == SwapAt(old(rows[2..]), i - 2)
    {
      rows[i], rows[i + 1] := rows[i + 1], rows[i];
    }

    /**
     * `sortTable(tableId, n)`: picks the direction from header cell n - 1, moves
     * the sort indicator to it, and bubble-sorts rows 2.. by cell n + 1,
     * restarting the scan after every swap.  Returns the direction the rows end
     * up in, which the header does not record when an already ascending table
     * was flipped to descending.
     */
    method SortTable(n: nat) returns (dir: Dir)
      requires rows.Length >= 2 && 1 <= n <= |header|
      requires forall k :: 2 <= k < rows.Length ==> n + 1 < |rows[k]|
      modifies this, rows
      ensures rows == old(rows) && rows[..2] == old(rows[..2])
      ensures header == MarkHeader(old(header), n - 1, NewDir(old(header)[n - 1]))
      ensures (rows[2..], dir) == SortOutcome(old(rows[2..]), n + 1, NewDir(old(header)[n - 1]))
    {
      var col := n + 1;
      dir := NewDir(header[n - 1]);
      header := MarkHeader(header, n - 1, dir);
      ghost var marked := header;
      ghost var final := SortOutcome(rows[2..], col, dir);
      RowOutAsymmetric(col, Asc);
      RowOutAsymmetric(col, Desc);
      assert final == Pending(rows[2..], col, dir, dir == Asc);
      var switching, switchcount := true, 0;
      while switching
        invariant rows == old(rows) && header == marked
        invariant rows[..2] == old(rows[..2])
        invariant switching ==> final == Pending(rows[2..], col, dir, dir == Asc && switchcount == 0)
        invariant !switching ==> final == (rows[2..], dir)
        decreases FirstFlag(dir, switchcount), Inversions(rows[2..], RowOut(col, dir)), if switching then 1 else 0
      {
        switching, dir, switchcount := SortPass(col, dir, switchcount, final);
      }
    }

    /**
     * One pass of the `while (switching)` loop: swap the first out-of-order
     * pair if there is one; otherwise an ascending table that has not been
     * touched flips to descending, and any other table is done.
     */
    method SortPass(col: nat, dir: Dir, switchcount: nat, ghost final: (seq<Row>, Dir))
      returns (switching: bool, dir': Dir, switchcount': nat)
      requires rows.Length >= 2
      requires final == Pending(rows[2..], col, dir, dir == Asc && switchcount == 0)
      modifies rows
      ensures rows[..2] == old(rows[..2])
      ensures switching ==> final == Pending(rows[2..], col, dir', dir' == Asc && switchcount' == 0)
      ensures !switching ==> final == (rows[2..], dir')
      ensures FirstFlag(dir', switchcount') < FirstFlag(dir, switchcount) ||
        (FirstFlag(dir', switchcount') == FirstFlag(dir, switchcount) && dir' == dir &&
         (Inversions(rows[2..], RowOut(col, dir)) < Inversions(old(rows[2..]), RowOut(col, dir)) ||
          (!switching && rows[2..] == old(rows[2..]))))
    {
      var i := FindSwap(col, dir);
      ghost var body := rows[2..];
      ghost var first := dir == Asc && switchcount == 0;
      if i < rows.Length - 1 {
        SwapRows(i);
        SwapStep(body, col, dir, first, i - 2);
        SwapRemovesInversion(body, i - 2, RowOut(col, dir));
        return true, dir, switchcount + 1;
      }
      QuietStep(body, col, dir, first);
      if switchcount == 0 && dir == Asc {
        return true, Desc, switchcount;
      }
      return false, dir, switchcount;
    }
  }

  /** How a call of `sortTable` ends. */
  datatype SortResult = TableNotFound | HeaderCellMissing | SortedAs(dir: Dir)

  /**
   * `sortTable` from the table lookup on: a missing table is reported and
   * nothing changes; a table without header row 1, or without header cell
   * n - 1 (n = 0 included), throws before anything changes; otherwise the
   * table is sorted as SortTable describes.
   */
  method SortTableById(table: ScoresTable?, n: int) returns (r: SortResult)
    requires table != null && table.rows.Length >= 2 && 1 <= n <= |table.header| ==>
      forall k :: 2 <= k < table.rows.Length ==> n + 1 < |table.rows[k]|
    modifies table, if table != null then {table.rows} else {}
    ensures table == null ==> r == TableNotFound
    ensures table != null ==> table.rows == old(table.rows)
    ensures table != null && (table.rows.Length < 2 || !(1 <= n <= |old(table.header)|)) ==>
      r == HeaderCellMissing && table.header == old(table.header) && table.rows[..] == old(table.rows[..])
    ensures table != null && table.rows.Length >= 2 && 1 <= n <= |old(table.header)| ==>
      && r.SortedAs?
      && table.rows[..2] == old(table.rows[..2])
      && table.header == MarkHeader(old(table.header), n - 1, NewDir(old(table.header)[n - 1]))
      && (table.rows[2..], r.dir) == SortOutcome(old(table.rows[2..]), n + 1, NewDir(old(table.header)[n - 1]))
  {
    if table == null {
      return TableNotFound;
    }
    if table.rows.Length < 2 || !(1 <= n <= |table.header|) {
      return HeaderCellMissing;
    }
    var dir := table.SortTable(n);
    return SortedAs(dir);
  }

  /** 1 while the table may still flip from ascending to descending, 0 after. */
  function FirstFlag(dir: Dir, switchcount: nat): nat {
    if dir == Asc && switchcount == 0 then 1 else 0
  }

  /**
   * The header after a click on an already ascending table still says "asc"
   * although the rows are now in descending order.
   */
  lemma AutoFlipLeavesAscIndicator(header: seq<HeaderCell>, body: seq<Row>, c: nat, col: nat)
    requires c < |header| && header[c].sortDir != Some(Asc)
    requires Settled(body, RowOut(col, Asc))
    ensures MarkHeader(header, c, NewDir(header[c]))[c].sortDir == Some(Asc)
    ensures SortOutcome(body, col, NewDir(header[c])).1 == Desc
  {
  }
}
