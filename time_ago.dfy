/**
 * The "last refreshed … ago" text of the score view, and the helper that
 * drops a string's last character.
 */
module TimeAgo {
  import opened Text

  const MINUTE: int := 60
  const HOUR: int := 60 * MINUTE
  const DAY: int := 24 * HOUR
  const WEEK: int := 7 * DAY
  const MONTH: int := 30 * DAY
  const YEAR: int := 365 * DAY

  /**
   * The formatted elapsed time.  The year and month branches print a
   * floating-point quotient with two decimals; the model keeps that quotient
   * as an exact fraction with its unit instead of its decimal text.
   */
  datatype TimeAgo = Exact(text: string) | Fraction(amount: real, unit: string)

  /** "1 week" for one, "{n} weeks" otherwise. */
  function Count(n: int, unit: string): string {
    if n == 1 then "1 " + unit else IntToString(n) + " " + unit + "s"
  }

  /** `format_time_ago_for_score_view` on the elapsed whole seconds. */
  function FormatTimeAgo(secs: int): (r: TimeAgo)
    ensures secs >= YEAR ==> (r == Exact("1 year") <==> secs == YEAR)
    ensures secs >= YEAR && secs != YEAR ==> r.Fraction? && r.unit == "years" && r.amount * (YEAR as real) == secs as real
    ensures MONTH <= secs < YEAR ==> r.Fraction? && r.unit == "months" && r.amount * (MONTH as real) == secs as real
    ensures secs < MONTH ==> r.Exact?
  {
    if secs >= YEAR then
      // |years - 1.0| < f64::EPSILON holds only for exactly one year
      if secs == YEAR then Exact("1 year") else Fraction(secs as real / YEAR as real, "years")
    else if secs >= MONTH then Fraction(secs as real / MONTH as real, "months")
    else if secs >= WEEK then Exact(Count(secs / WEEK, "week"))
    else if secs >= DAY then Exact(Count(secs / DAY, "day"))
    else if secs >= HOUR then Exact(Count(secs / HOUR, "hour"))
    else if secs >= MINUTE then Exact(Count(secs / MINUTE, "minute"))
    else if secs == 1 then Exact("1 second")
    else Exact(IntToString(secs) + " seconds")
  }

  datatype Unit = Unit(size: int, name: string)

  /** The whole units below a month, largest first; a second is the last resort. */
  const Units: seq<Unit> := [Unit(WEEK, "week"), Unit(DAY, "day"), Unit(HOUR, "hour"), Unit(MINUTE, "minute"), Unit(1, "second")]

  /** Unit k is the largest one that secs reaches (seconds also cover zero and negative values). */
  predicate Fits(secs: int, k: int) {
    0 <= k < |Units| &&
    (k == |Units| - 1 || Units[k].size <= secs) &&
    (if k == 0 then secs < MONTH else secs < Units[k - 1].size)
  }

  /** Below a month exactly one unit fits. */
  lemma FitsUnique(secs: int, k: int, k': int)
    requires Fits(secs, k) && Fits(secs, k')
    ensures k == k'
  {
  }

  /**
   * Below a month the text counts whole units of the largest unit that
   * fits: the count is secs divided by the unit, at least one for every
   * unit but seconds, and the unit is singular exactly when the count is one.
   */
  lemma BelowMonthCountsWholeUnits(secs: int)
    requires secs < MONTH
    ensures exists k :: Fits(secs, k) && FormatTimeAgo(secs) == Exact(Count(secs / Units[k].size, Units[k].name))
    ensures forall k :: Fits(secs, k) && k < |Units| - 1 ==> 1 <= secs / Units[k].size
  {
    var k := if secs >= WEEK then 0 else if secs >= DAY then 1 else if secs >= HOUR then 2 else if secs >= MINUTE then 3 else 4;
    assert Fits(secs, k);
    FittingUnitText(secs, k);
    forall k' | Fits(secs, k') && k' < |Units| - 1 ensures 1 <= secs / Units[k'].size {
      DivAtLeastOne(secs, Units[k'].size);
    }
  }

  /** The text for the unit that fits. */
  lemma FittingUnitText(secs: int, k: int)
    requires Fits(secs, k)
    ensures FormatTimeAgo(secs) == Exact(Count(secs / Units[k].size, Units[k].name))
  {
    var u := Units[k];
    if k == 0 {
      assert u == Unit(WEEK, "week");
      WholeUnitText(secs, u);
    } else if k == 1 {
      assert u == Unit(DAY, "day");
      WholeUnitText(secs, u);
    } else if k == 2 {
      assert u == Unit(HOUR, "hour");
      WholeUnitText(secs, u);
    } else if k == 3 {
      assert u == Unit(MINUTE, "minute");
      WholeUnitText(secs, u);
    } else {
      assert u == Unit(1, "second");
      SecondsText(secs);
    }
  }

  /** From a minute up to a month the text counts the largest whole unit reached. */
  lemma WholeUnitText(secs: int, u: Unit)
    requires secs < MONTH
    requires u == Unit(WEEK, "week") ==> WEEK <= secs
    requires u == Unit(DAY, "day") ==> DAY <= secs < WEEK
    requires u == Unit(HOUR, "hour") ==> HOUR <= secs < DAY
    requires u == Unit(MINUTE, "minute") ==> MINUTE <= secs < HOUR
    requires u in {Unit(WEEK, "week"), Unit(DAY, "day"), Unit(HOUR, "hour"), Unit(MINUTE, "minute")}
    ensures FormatTimeAgo(secs) == Exact(Count(secs / u.size, u.name))
  {
  }

  /** Below a minute the text counts seconds. */
  lemma SecondsText(secs: int)
    requires secs < MINUTE
    ensures FormatTimeAgo(secs) == Exact(Count(secs / 1, "second"))
  {
    assert secs / 1 == secs;
  }

  lemma DivAtLeastOne(a: int, b: int)
    requires 0 < b <= a
    ensures 1 <= a / b
  {
  }

  /** Eleven days are one whole week. */
  lemma ElevenDaysIsOneWeek()
    ensures FormatTimeAgo(11 * DAY) == Exact("1 week")
  {
  }

  /** Zero seconds still use the plural. */
  lemma ZeroSeconds()
    ensures FormatTimeAgo(0) == Exact("0 seconds")
  {
    assert IntToString(0) == "0";
  }

  /** `take_a_char_off`: the string without its last character; empty stays empty. */
  function TakeACharOff(s: string): (r: string)
    ensures |s| > 0 ==> |r| == |s| - 1 && s == r + [s[|s| - 1]]
    ensures |s| == 0 ==> r == s
  {
    if |s| == 0 then s else s[..|s| - 1]
  }

  /** Taking a character off undoes appending one. */
  lemma TakeACharOffUndoesPush(s: string, c: char)
    ensures TakeACharOff(s + [c]) == s
  {
    assert (s + [c])[..|s|] == s;
  }
}
