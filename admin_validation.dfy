/**
 * The admin token type (src/admin/model/admin_model/validation.rs): a string
 * of exactly 14 ASCII letters and digits, checked with the pattern
 * `^[a-zA-Z0-9]{14}$`.
 */
module AdminValidation {
  import opened Wrappers
  import opened Text

  /** An accepted token; only `New` makes one from outside this module's lemmas. */
  datatype AlphaNum14 = AlphaNum14(value: string)

  /** The property the pattern describes. */
  predicate IsAlphaNum14(s: string) {
    |s| == 14 && forall i :: 0 <= i < |s| ==> IsAsciiAlphanumeric(s[i])
  }

  /** How many letters and digits the input starts with. */
  function LeadingAlphanumerics(s: string): (n: nat)
    ensures n <= |s| && forall i :: 0 <= i < n ==> IsAsciiAlphanumeric(s[i])
    ensures n < |s| ==> !IsAsciiAlphanumeric(s[n])
  {
    if |s| == 0 || !IsAsciiAlphanumeric(s[0]) then 0 else 1 + LeadingAlphanumerics(s[1..])
  }

  /** The anchored pattern, as the matcher runs it: fourteen class characters from the start, then the end. */
  predicate PatternMatches(s: string) {
    LeadingAlphanumerics(s) >= 14 && |s| == 14
  }

  /** The matcher accepts exactly the 14-character alphanumeric strings. */
  lemma PatternIsAlphaNum14(s: string)
    ensures PatternMatches(s) <==> IsAlphaNum14(s)
  {
    if IsAlphaNum14(s) {
      AllAlphanumericCounted(s);
    }
  }

  lemma {:induction false} AllAlphanumericCounted(s: string)
    requires forall i :: 0 <= i < |s| ==> IsAsciiAlphanumeric(s[i])
    ensures LeadingAlphanumerics(s) == |s|
  {
    if |s| > 0 {
      AllAlphanumericCounted(s[1..]);
    }
  }

  /** `AlphaNum14::new`. */
  function New(input: string): (r: Option<AlphaNum14>)
    ensures r.Some? <==> IsAlphaNum14(input)
    ensures r.Some? ==> r.value.value == input
  {
    PatternIsAlphaNum14(input);
    if PatternMatches(input) then Some(AlphaNum14(input)) else None
  }

  const INVALID_ALPHANUM: string := "Invalid alphanumeric string: must be exactly 14 alphanumeric characters"

  /** `TryFrom<&str>`. */
  function TryFrom(input: string): (r: Result<AlphaNum14, string>)
    ensures r.Err? <==> New(input).None?
    ensures r.Err? ==> r.error == INVALID_ALPHANUM
    ensures r.Ok? ==> r.value == New(input).value
  {
    match New(input)
    case Some(v) => Ok(v)
    case None => Err(INVALID_ALPHANUM)
  }

  /** `AlphaNum14::parse`: `TryFrom` with a shorter message. */
  function Parse(input: string): (r: Result<AlphaNum14, string>)
    ensures r.Err? <==> New(input).None?
    ensures r.Err? ==> r.error == "Invalid input"
    ensures r.Ok? ==> r.value.value == input
  {
    match TryFrom(input)
    case Ok(v) => Ok(v)
    case Err(_) => Err("Invalid input")
  }

  /** `Default`. */
  function Default(): AlphaNum14 {
    AlphaNum14("default")
  }

  /** The default value is one `new` would refuse: it has 7 characters. */
  lemma DefaultIsNotAccepted()
    ensures New(Default().value).None?
  {
  }

  /** An accepted value is given back unchanged, and accepting it again gives the same value. */
  lemma ValueRoundTrip(input: string)
    requires New(input).Some?
    ensures New(New(input).value.value) == New(input)
    ensures Parse(New(input).value.value) == Ok(New(input).value)
  {
  }
}
