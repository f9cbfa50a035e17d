/**
 * Character classes, trimming, splitting, joining and decimal integers, as the
 * Rust standard library (`str::trim`, `str::split`, `split_whitespace`,
 * `str::parse::<i32>`, `format!("{n}")`) and JavaScript (`String.trim`,
 * `toLowerCase`, string `<`) behave on them.
 */
module Text {
  import opened Wrappers

  // ---------------------------------------------------------------------------
  // Character classes

  /** ASCII white space: the characters `char::is_whitespace` and JavaScript's trim agree on. */
  predicate IsWhitespace(c: char) {
    c == ' ' || c == '\t' || c == '\n' || c == '\r' || c == '\U{B}' || c == '\U{C}'
  }

  predicate IsDigit(c: char) { '0' <= c <= '9' }

  predicate IsAsciiAlphanumeric(c: char) {
    IsDigit(c) || 'a' <= c <= 'z' || 'A' <= c <= 'Z'
  }

  /** `char::is_control`: general category Cc, U+0000..U+001F and U+007F..U+009F. */
  predicate IsControl(c: char) {
    c <= '\U{1F}' || '\U{7F}' <= c <= '\U{9F}'
  }

  predicate AllDigits(s: string) {
    forall i :: 0 <= i < |s| ==> IsDigit(s[i])
  }

  function LowerChar(c: char): char {
    if 'A' <= c <= 'Z' then (c as int + 32) as char else c
  }

  /** `toLowerCase` on the ASCII letters. */
  function Lower(s: string): (r: string)
    ensures |r| == |s|
    ensures forall i :: 0 <= i < |s| ==> r[i] == LowerChar(s[i])
  {
    seq(|s|, i requires 0 <= i < |s| => LowerChar(s[i]))
  }

  // ---------------------------------------------------------------------------
  // Prefixes, suffixes and trimming

  predicate StartsWith(s: string, prefix: string) {
    |prefix| <= |s| && s[..|prefix|] == prefix
  }

  predicate EndsWith(s: string, suffix: string) {
    |suffix| <= |s| && s[|s| - |suffix|..] == suffix
  }

  /** `trim_start`: drops leading white space. */
  function TrimStart(s: string): (r: string)
    ensures |r| <= |s| && r == s[|s| - |r|..]
    ensures forall i :: 0 <= i < |s| - |r| ==> IsWhitespace(s[i])
    ensures r == [] || !IsWhitespace(r[0])
  {
    if |s| > 0 && IsWhitespace(s[0]) then TrimStart(s[1..]) else s
  }

  /** `trim_end`: drops trailing white space. */
  function TrimEnd(s: string): (r: string)
    ensures |r| <= |s| && r == s[..|r|]
    ensures forall i :: |r| <= i < |s| ==> IsWhitespace(s[i])
    ensures r == [] || !IsWhitespace(r[|r| - 1])
  {
    if |s| > 0 && IsWhitespace(s[|s| - 1]) then TrimEnd(s[..|s| - 1]) else s
  }

  /** `trim`: drops white space at both ends. */
  function Trim(s: string): (r: string)
    ensures r == [] || (!IsWhitespace(r[0]) && !IsWhitespace(r[|r| - 1]))
  {
    TrimEnd(TrimStart(s))
  }

  predicate IsTrimmed(s: string) {
    s == [] || (!IsWhitespace(s[0]) && !IsWhitespace(s[|s| - 1]))
  }

  lemma TrimOfTrimmed(s: string)
    requires IsTrimmed(s)
    ensures Trim(s) == s
  {
  }

  /** `trim_start_matches(c)`: drops every leading copy of `c`. */
  function TrimStartMatches(s: string, c: char): (r: string)
    ensures |r| <= |s| && r == s[|s| - |r|..]
    ensures forall i :: 0 <= i < |s| - |r| ==> s[i] == c
    ensures r == [] || r[0] != c
  {
    if |s| > 0 && s[0] == c then TrimStartMatches(s[1..], c) else s
  }

  // ---------------------------------------------------------------------------
  // Splitting and joining

  /** `str::split(p)`: the pieces between separators, empty pieces included. */
  function SplitBy(s: string, p: char -> bool): (r: seq<string>)
    ensures |r| >= 1
    ensures forall i, j :: 0 <= i < |r| && 0 <= j < |r[i]| ==> !p(r[i][j])
  {
    if |s| == 0 then [""]
    else
      var rest := SplitBy(s[1..], p);
      if p(s[0]) then [""] + rest else [[s[0]] + rest[0]] + rest[1..]
  }

  /** `parts.join(sep)`. */
  function Join(parts: seq<string>, sep: string): string {
    if |parts| == 0 then ""
    else if |parts| == 1 then parts[0]
    else parts[0] + sep + Join(parts[1..], sep)
  }

  /** Joining one more piece appends the separator and the piece. */
  lemma {:induction false} JoinSnoc(parts: seq<string>, x: string, sep: string)
    requires |parts| >= 1
    ensures Join(parts + [x], sep) == Join(parts, sep) + sep + x
  {
    if |parts| == 1 {
      assert (parts + [x])[1..] == [x];
    } else {
      assert (parts + [x])[1..] == parts[1..] + [x];
      JoinSnoc(parts[1..], x, sep);
    }
  }

  /** Splitting on a single character and joining with it gives the input back. */
  lemma {:induction false} JoinSplit(s: string, c: char)
    ensures Join(SplitBy(s, x => x == c), [c]) == s
  {
    if |s| > 0 {
      JoinSplit(s[1..], c);
      var rest := SplitBy(s[1..], x => x == c);
      if s[0] == c {
        assert SplitBy(s, x => x == c) == [""] + rest;
      } else {
        var r := [[s[0]] + rest[0]] + rest[1..];
        assert SplitBy(s, x => x == c) == r;
        if |rest| == 1 {
          assert Join(r, [c]) == [s[0]] + rest[0];
        } else {
          assert r[1..] == rest[1..];
          assert Join(r, [c]) == [s[0]] + rest[0] + [c] + Join(rest[1..], [c]);
        }
      }
    }
  }

  /** No character of s satisfies p. */
  predicate NoneMatch(s: string, p: char -> bool) {
    forall i :: 0 <= i < |s| ==> !p(s[i])
  }

  /** Splitting a run with no separator in front of the rest glues the run to the first piece. */
  lemma {:induction false} SplitByPrefix(a: string, rest: string, p: char -> bool)
    requires NoneMatch(a, p)
    ensures SplitBy(a + rest, p) == [a + SplitBy(rest, p)[0]] + SplitBy(rest, p)[1..]
  {
    if |a| == 0 {
      var r := SplitBy(rest, p);
      assert a + rest == rest && a + r[0] == r[0];
      assert [r[0]] + r[1..] == r;
    } else {
      assert (a + rest)[1..] == a[1..] + rest;
      SplitByPrefix(a[1..], rest, p);
      assert [a[0]] + (a[1..] + SplitBy(rest, p)[0]) == a + SplitBy(rest, p)[0];
    }
  }

  /** Joining pieces free of the separator and splitting again gives the pieces back. */
  lemma {:induction false} SplitJoin(parts: seq<string>, c: char, p: char -> bool)
    requires |parts| >= 1 && p(c)
    requires forall i :: 0 <= i < |parts| ==> NoneMatch(parts[i], p)
    ensures SplitBy(Join(parts, [c]), p) == parts
  {
    if |parts| == 1 {
      SplitByPrefix(parts[0], "", p);
      assert parts[0] + "" == parts[0];
    } else {
      var j := Join(parts[1..], [c]);
      SplitJoin(parts[1..], c, p);
      assert ([c] + j)[1..] == j;
      assert SplitBy([c] + j, p) == [""] + parts[1..];
      assert parts[0] + [c] + j == parts[0] + ([c] + j);
      SplitByPrefix(parts[0], [c] + j, p);
      assert parts[0] + "" == parts[0];
      assert [parts[0]] + parts[1..] == parts;
    }
  }

  /** The pieces hold only characters of the input, so a class absent from it is absent from them. */
  lemma {:induction false} SplitByKeeps(s: string, p: char -> bool, q: char -> bool)
    requires NoneMatch(s, q)
    ensures forall i :: 0 <= i < |SplitBy(s, p)| ==> NoneMatch(SplitBy(s, p)[i], q)
  {
    if |s| > 0 {
      SplitByKeeps(s[1..], p, q);
    }
  }

  /** Joining pieces and a separator that avoid a class gives a string that avoids it. */
  lemma {:induction false} JoinKeeps(parts: seq<string>, sep: string, q: char -> bool)
    requires NoneMatch(sep, q) && forall i :: 0 <= i < |parts| ==> NoneMatch(parts[i], q)
    ensures NoneMatch(Join(parts, sep), q)
  {
    if |parts| > 1 {
      JoinKeeps(parts[1..], sep, q);
      var j := Join(parts[1..], sep);
      assert Join(parts, sep) == parts[0] + sep + j;
      forall i | 0 <= i < |Join(parts, sep)|
        ensures !q(Join(parts, sep)[i])
      {
        if i < |parts[0]| {
        } else if i < |parts[0]| + |sep| {
          assert Join(parts, sep)[i] == sep[i - |parts[0]|];
        } else {
          assert Join(parts, sep)[i] == j[i - |parts[0]| - |sep|];
        }
      }
    }
  }

  /** A string made only of separators splits into empty pieces. */
  lemma {:induction false} SplitSeparatorsOnly(s: string, p: char -> bool)
    requires forall i :: 0 <= i < |s| ==> p(s[i])
    ensures forall i :: 0 <= i < |SplitBy(s, p)| ==> SplitBy(s, p)[i] == []
  {
    if |s| > 0 {
      SplitSeparatorsOnly(s[1..], p);
    }
  }

  /** Keeps the non-empty pieces, in order. */
  function NonEmpty(parts: seq<string>): (r: seq<string>)
    ensures |r| <= |parts|
    ensures forall i :: 0 <= i < |r| ==> r[i] != [] && r[i] in parts
  {
    if |parts| == 0 then []
    else if parts[0] == [] then NonEmpty(parts[1..])
    else [parts[0]] + NonEmpty(parts[1..])
  }

  lemma {:induction false} NonEmptyKeepsNonEmpty(parts: seq<string>)
    requires forall i :: 0 <= i < |parts| ==> parts[i] != []
    ensures NonEmpty(parts) == parts
  {
    if |parts| > 0 {
      NonEmptyKeepsNonEmpty(parts[1..]);
    }
  }

  lemma {:induction false} NonEmptyOfEmpties(parts: seq<string>)
    requires forall i :: 0 <= i < |parts| ==> parts[i] == []
    ensures NonEmpty(parts) == []
  {
    if |parts| > 0 {
      NonEmptyOfEmpties(parts[1..]);
    }
  }

  /** Every kept piece is one of the pieces, so what holds of all pieces holds of the kept ones. */
  lemma NonEmptyKeeps(parts: seq<string>, p: char -> bool)
    requires forall i :: 0 <= i < |parts| ==> NoneMatch(parts[i], p)
    ensures forall i :: 0 <= i < |NonEmpty(parts)| ==> NoneMatch(NonEmpty(parts)[i], p)
  {
    forall i | 0 <= i < |NonEmpty(parts)|
      ensures NoneMatch(NonEmpty(parts)[i], p)
    {
      var k :| 0 <= k < |parts| && parts[k] == NonEmpty(parts)[i];
    }
  }

  /** Every piece trimmed. */
  function TrimAll(parts: seq<string>): (r: seq<string>)
    ensures |r| == |parts| && forall i :: 0 <= i < |parts| ==> r[i] == Trim(parts[i])
  {
    seq(|parts|, i requires 0 <= i < |parts| => Trim(parts[i]))
  }

  predicate IsNewline(c: char) { c == '\n' }

  /** `split_whitespace`: the maximal runs of non-white-space characters. */
  function Words(s: string): seq<string> {
    NonEmpty(SplitBy(s, IsWhitespace))
  }

  /** Words separated by single spaces split back into those words. */
  lemma WordsOfJoin(parts: seq<string>)
    requires |parts| >= 1
    requires forall i :: 0 <= i < |parts| ==> parts[i] != [] && NoneMatch(parts[i], IsWhitespace)
    ensures Words(Join(parts, " ")) == parts
  {
    assert IsWhitespace(' ');
    assert " " == [' '];
    SplitJoin(parts, ' ', IsWhitespace);
    NonEmptyKeepsNonEmpty(parts);
  }

  function Repeat(c: char, n: nat): (r: string)
    ensures |r| == n && forall i :: 0 <= i < n ==> r[i] == c
  {
    seq(n, _ => c)
  }

  // ---------------------------------------------------------------------------
  // Decimal integers

  function DigitValue(c: char): nat
    requires IsDigit(c)
  {
    c as int - '0' as int
  }

  function DigitChar(d: nat): (c: char)
    requires d < 10
    ensures IsDigit(c) && DigitValue(c) == d
  {
    ('0' as int + d) as char
  }

  /** The value of a string of decimal digits, most significant first. */
  function DigitsValue(s: string): nat
    requires AllDigits(s)
  {
    if |s| == 0 then 0 else DigitsValue(s[..|s| - 1]) * 10 + DigitValue(s[|s| - 1])
  }

  /** The shortest decimal spelling of `n` (`format!("{n}")` for n >= 0). */
  function NatToDigits(n: nat): (r: string)
    ensures |r| >= 1 && AllDigits(r) && DigitsValue(r) == n
    ensures r[0] != '0' || n == 0
  {
    if n < 10 then [DigitChar(n)]
    else
      var r := NatToDigits(n / 10) + [DigitChar(n % 10)];
      assert r[..|r| - 1] == NatToDigits(n / 10);
      r
  }

  /** `format!("{i}")` / `i.to_string()` on an integer. */
  function IntToString(i: int): string {
    if i < 0 then "-" + NatToDigits(-i) else NatToDigits(i)
  }

  /** One or more decimal digits and nothing else, with their value. */
  function ParseDigits(s: string): Option<nat> {
    if |s| == 0 || !IsDigit(s[|s| - 1]) then None
    else if |s| == 1 then Some(DigitValue(s[0]))
    else
      match ParseDigits(s[..|s| - 1])
      case None => None
      case Some(v) => Some(v * 10 + DigitValue(s[|s| - 1]))
  }

  lemma {:induction false} ParseDigitsCorrect(s: string)
    ensures ParseDigits(s).Some? <==> |s| > 0 && AllDigits(s)
    ensures ParseDigits(s).Some? ==> ParseDigits(s).value == DigitsValue(s)
  {
    if |s| > 1 && IsDigit(s[|s| - 1]) {
      var p := s[..|s| - 1];
      ParseDigitsCorrect(p);
      if AllDigits(p) {
        assert AllDigits(s) by {
          forall i | 0 <= i < |s| ensures IsDigit(s[i]) {
            if i < |s| - 1 { assert s[i] == p[i]; }
          }
        }
      } else {
        var i :| 0 <= i < |p| && !IsDigit(p[i]);
        assert s[i] == p[i];
      }
    } else if |s| == 1 && IsDigit(s[0]) {
      assert s[..0] == [];
    }
  }

  /**
   * `str::parse` for a Rust integer type whose range is lo..=hi: an optional
   * `+` or `-`, then one or more ASCII digits and nothing else; a value
   * outside the range is an error.
   */
  function ParseInt(s: string, lo: int, hi: int): (r: Option<int>)
    ensures r.Some? ==> lo <= r.value <= hi
  {
    if |s| == 0 then None
    else
      var neg := s[0] == '-';
      var digits := if s[0] == '-' || s[0] == '+' then s[1..] else s;
      match ParseDigits(digits)
      case None => None
      case Some(n) =>
        var m: int := n;
        var v := if neg then -m else m;
        if lo <= v <= hi then Some(v) else None
  }

  /** What ParseInt accepts: a sign or a digit first, and a string of digits after the sign. */
  lemma ParseIntShape(s: string, lo: int, hi: int)
    ensures ParseInt(s, lo, hi).Some? ==> |s| > 0 && (IsDigit(s[0]) || s[0] == '+' || s[0] == '-')
    ensures ParseInt(s, lo, hi).Some? ==> AllDigits(if s[0] == '-' || s[0] == '+' then s[1..] else s)
  {
    if |s| > 0 {
      ParseDigitsCorrect(if s[0] == '-' || s[0] == '+' then s[1..] else s);
    }
  }

  const I32_MIN: int := -0x8000_0000
  const I32_MAX: int := 0x7FFF_FFFF
  const I64_MIN: int := -0x8000_0000_0000_0000
  const I64_MAX: int := 0x7FFF_FFFF_FFFF_FFFF

  function ParseI32(s: string): Option<int> { ParseInt(s, I32_MIN, I32_MAX) }
  function ParseI64(s: string): Option<int> { ParseInt(s, I64_MIN, I64_MAX) }

  /** Printing an in-range integer and parsing it back gives the integer. */
  lemma ParseIntToString(n: int, lo: int, hi: int)
    requires lo <= n <= hi
    ensures ParseInt(IntToString(n), lo, hi) == Some(n)
  {
    var s := IntToString(n);
    if n < 0 {
      assert s[1..] == NatToDigits(-n);
      ParseDigitsCorrect(NatToDigits(-n));
    } else {
      assert IsDigit(s[0]);
      ParseDigitsCorrect(s);
    }
  }

  /** Two integers with the same spelling are equal. */
  lemma IntToStringInjective(a: int, b: int)
    requires IntToString(a) == IntToString(b)
    ensures a == b
  {
    ParseIntToString(a, a - b * b - 1, a + b * b + 1);
    ParseIntToString(b, a - b * b - 1, a + b * b + 1);
  }

  lemma IntToStringShape(n: int)
    ensures |IntToString(n)| >= 1
    ensures forall i :: 0 <= i < |IntToString(n)| ==> IsDigit(IntToString(n)[i]) || (i == 0 && n < 0)
    ensures IntToString(n)[0] == '-' <==> n < 0
  {
  }

  // ---------------------------------------------------------------------------
  // Lexicographic order (Rust `String` / JavaScript string comparison by code point)

  /** `a < b` lexicographically: a proper prefix, or smaller at the first difference. */
  predicate Less(a: string, b: string) {
    if |a| == 0 then |b| > 0
    else if |b| == 0 then false
    else if a[0] == b[0] then Less(a[1..], b[1..])
    else a[0] < b[0]
  }

  predicate LessEq(a: string, b: string) { a == b || Less(a, b) }

  lemma {:induction false} LessIrreflexive(a: string)
    ensures !Less(a, a)
  {
    if |a| > 0 { LessIrreflexive(a[1..]); }
  }

  lemma {:induction false} LessAsymmetric(a: string, b: string)
    requires Less(a, b)
    ensures !Less(b, a)
  {
    if |a| > 0 && |b| > 0 && a[0] == b[0] { LessAsymmetric(a[1..], b[1..]); }
  }

  lemma {:induction false} LessTransitive(a: string, b: string, c: string)
    requires Less(a, b) && Less(b, c)
    ensures Less(a, c)
  {
    if |a| > 0 && |b| > 0 && |c| > 0 && a[0] == b[0] && b[0] == c[0] {
      LessTransitive(a[1..], b[1..], c[1..]);
    }
  }

  lemma {:induction false} LessTotal(a: string, b: string)
    ensures a == b || Less(a, b) || Less(b, a)
  {
    if |a| > 0 && |b| > 0 && a[0] == b[0] {
      LessTotal(a[1..], b[1..]);
      if a[1..] == b[1..] {
        assert a == [a[0]] + a[1..] && b == [b[0]] + b[1..];
      }
    }
  }
}
