/** The two Go `strconv` parses the helper applies directly to a stack
    value: `ParseUint(s, 10, 8)` for `decimals` and `ParseBool` for
    `transfer`, with the formatting functions they invert.
 */
module Strconv {
  import opened Results
  import opened Bytes

  predicate IsDigit(c: char) {
    '0' <= c <= '9'
  }

  predicate AllDigits(s: string) {
    forall i :: 0 <= i < |s| ==> IsDigit(s[i])
  }

  function DigitValue(c: char): (v: nat)
    requires IsDigit(c)
    ensures v < 10
  {
    c as int - '0' as int
  }

  function DigitChar(v: nat): (c: char)
    requires v < 10
    ensures IsDigit(c) && DigitValue(c) == v
  {
    (v + '0' as int) as char
  }

  /** The value a string of decimal digits denotes, most significant digit
      first; the empty string denotes zero. */
  function DecimalValue(s: string): nat
    requires AllDigits(s)
  {
    if |s| == 0 then 0 else 10 * DecimalValue(s[..|s| - 1]) + DigitValue(s[|s| - 1])
  }

  /** Go's base-10 scan: consume digits left to right, accumulating n, and
      fail on the first character that is not a digit or as soon as the
      accumulated value exceeds max. */
  function ScanDecimal(s: string, i: nat, n: nat, max: nat): (r: Option<nat>)
    requires i <= |s| && AllDigits(s[..i]) && n == DecimalValue(s[..i]) && n <= max
    ensures r.Some? <==> AllDigits(s) && DecimalValue(s) <= max
    ensures r.Some? ==> r.value == DecimalValue(s)
    decreases |s| - i
  {
    if i == |s| then
      assert s[..i] == s;
      Some(n)
    else if !IsDigit(s[i]) then
      None
    else
      var n' := 10 * n + DigitValue(s[i]);
      assert s[..i + 1][..i] == s[..i];
      if n' > max then
        if AllDigits(s) then PrefixValueBound(s, i + 1); None else None
      else
        ScanDecimal(s, i + 1, n', max)
  }

  /** `strconv.ParseUint(s, 10, 8)`: succeeds exactly on a non-empty string
      of decimal digits (no sign, no separators; leading zeros allowed)
      whose value fits in eight bits, and then yields that value. An
      out-of-range value is an error, never a truncated result. */
  function ParseUint8(s: string): (r: Option<u8>)
    ensures r.Some? <==> |s| > 0 && AllDigits(s) && DecimalValue(s) < 0x100
    ensures r.Some? ==> r.value == DecimalValue(s)
  {
    if |s| == 0 then None
    else
      match ScanDecimal(s, 0, 0, 0xff)
      case Some(v) => Some(v)
      case None => None
  }

  /** The canonical decimal text of n, as `strconv.FormatUint(n, 10)`. */
  function FormatDecimal(n: nat): (s: string)
    ensures |s| > 0 && AllDigits(s)
  {
    if n < 10 then [DigitChar(n)] else FormatDecimal(n / 10) + [DigitChar(n % 10)]
  }

  /** `strconv.ParseBool`: it accepts exactly the spellings of each value
      listed by `BoolSpellings`, and nothing else. */
  function ParseBool(s: string): (r: Option<bool>)
    ensures r == Some(true) <==> s in BoolSpellings(true)
    ensures r == Some(false) <==> s in BoolSpellings(false)
    ensures r.None? <==> s !in BoolSpellings(true) + BoolSpellings(false)
  {
    BoolSpellingsValues();
    match s
    case "1" => Some(true)
    case "t" => Some(true)
    case "T" => Some(true)
    case "TRUE" => Some(true)
    case "true" => Some(true)
    case "True" => Some(true)
    case "0" => Some(false)
    case "f" => Some(false)
    case "F" => Some(false)
    case "FALSE" => Some(false)
    case "false" => Some(false)
    case "False" => Some(false)
    case _ => None
  }

  /** ASCII upper case; other characters are unchanged. */
  function AsciiUpper(s: string): (u: string)
    ensures |u| == |s|
  {
    seq(|s|, i requires 0 <= i < |s| => if 'a' <= s[i] <= 'z' then (s[i] as int - 32) as char else s[i])
  }

  /** The spellings Go accepts for b: its formatted word in lower case, upper
      case and capitalised, the word's first letter in either case, and the
      digit 1 or 0. */
  function BoolSpellings(b: bool): set<string> {
    var w := FormatBool(b);
    {w, AsciiUpper(w), AsciiUpper(w[..1]) + w[1..], w[..1], AsciiUpper(w[..1]), if b then "1" else "0"}
  }

  lemma BoolSpellingsValues()
    ensures BoolSpellings(true) == {"true", "TRUE", "True", "t", "T", "1"}
    ensures BoolSpellings(false) == {"false", "FALSE", "False", "f", "F", "0"}
  {
    assert "true"[..1] == "t" && "true"[1..] == "rue";
    assert "false"[..1] == "f" && "false"[1..] == "alse";
    assert AsciiUpper("true") == "TRUE";
    assert AsciiUpper("t") == "T";
    assert AsciiUpper("false") == "FALSE";
    assert AsciiUpper("f") == "F";
    assert "T" + "true"[1..] == "True";
    assert "F" + "false"[1..] == "False";
  }

  /** `strconv.FormatBool`. */
  function FormatBool(b: bool): string {
    if b then "true" else "false"
  }

  /** The value of a digit string is at least the value of any prefix. */
  lemma {:induction false} PrefixValueBound(s: string, i: nat)
    requires i <= |s| && AllDigits(s)
    ensures AllDigits(s[..i]) && DecimalValue(s[..i]) <= DecimalValue(s)
    decreases |s|
  {
    if i < |s| {
      var t := s[..|s| - 1];
      assert t[..i] == s[..i];
      PrefixValueBound(t, i);
    } else {
      assert s[..i] == s;
    }
  }

  /** The decimal text of n denotes n. */
  lemma {:induction false} FormatDecimalValue(n: nat)
    ensures DecimalValue(FormatDecimal(n)) == n
  {
    if n >= 10 {
      var s := FormatDecimal(n);
      assert s[..|s| - 1] == FormatDecimal(n / 10);
      FormatDecimalValue(n / 10);
    }
  }

  /** Round trip: parsing the decimal text of any 8-bit value yields it. */
  lemma ParseFormatDecimal(n: u8)
    ensures ParseUint8(FormatDecimal(n)) == Some(n)
  {
    FormatDecimalValue(n);
  }

  /** A leading zero does not change the value of a digit string. */
  lemma {:induction false} LeadingZeroValue(s: string)
    requires AllDigits(s)
    ensures AllDigits("0" + s) && DecimalValue("0" + s) == DecimalValue(s)
    decreases |s|
  {
    var z := "0" + s;
    assert AllDigits(z) by {
      forall i | 0 <= i < |z| ensures IsDigit(z[i]) {
        if i > 0 { assert z[i] == s[i - 1]; }
      }
    }
    if |s| > 0 {
      assert z[..|z| - 1] == "0" + s[..|s| - 1];
      LeadingZeroValue(s[..|s| - 1]);
    }
  }

  /** `ParseUint(s, 10, 8)` accepts leading zeros: prefixing a non-empty
      string with "0" changes neither whether it parses nor its value. */
  lemma LeadingZeroAccepted(s: string)
    requires |s| > 0
    ensures ParseUint8("0" + s) == ParseUint8(s)
  {
    if AllDigits(s) {
      LeadingZeroValue(s);
    } else {
      var i :| 0 <= i < |s| && !IsDigit(s[i]);
      assert ("0" + s)[i + 1] == s[i];
    }
  }

  /** Round trip: parsing the formatted text of a boolean yields it. */
  lemma ParseFormatBool(b: bool)
    ensures ParseBool(FormatBool(b)) == Some(b)
  {
  }
}
