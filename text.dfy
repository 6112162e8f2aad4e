/**
 * The two text renderings the client relies on: decimal integers (status codes and timestamps in
 * log lines, port numbers in URLs) and `JSON.stringify` of a value (the debug request line).
 */
module Text {
  import opened Values

  predicate IsDigit(c: char)
  {
    '0' <= c <= '9'
  }

  predicate IsDigits(s: string)
  {
    forall i :: 0 <= i < |s| ==> IsDigit(s[i])
  }

  /** A decimal numeral as JavaScript prints one: no leading zero except in "0" itself. */
  predicate IsCanonicalNumeral(s: string)
  {
    |s| > 0 && IsDigits(s) && (s[0] == '0' ==> |s| == 1)
  }

  function DigitChar(d: nat): (c: char)
    requires d < 10
    ensures IsDigit(c) && c as int - '0' as int == d
  {
    ('0' as int + d) as char
  }

  /** `String(n)` for a natural number. */
  function NatText(n: nat): (s: string)
    ensures IsCanonicalNumeral(s)
  {
    if n < 10 then [DigitChar(n)] else NatText(n / 10) + [DigitChar(n % 10)]
  }

  /** `String(i)` for an integer. */
  function IntText(i: int): string
  {
    if i < 0 then "-" + NatText(-i) else NatText(i)
  }

  /** The value of a string of decimal digits (`parseInt(s, 10)` on digit-only input). */
  function DigitsValue(s: string): nat
    requires IsDigits(s)
  {
    if s == [] then 0 else DigitsValue(s[..|s| - 1]) * 10 + (s[|s| - 1] as int - '0' as int)
  }

  /** Printing then reading a natural number gives it back. */
  lemma {:induction false} NatTextValue(n: nat)
    ensures DigitsValue(NatText(n)) == n
  {
    if n >= 10 {
      var t := NatText(n / 10);
      assert (t + [DigitChar(n % 10)])[..|t|] == t;
      NatTextValue(n / 10);
    }
  }

  lemma {:induction false} LeadingDigitPositive(s: string)
    requires IsCanonicalNumeral(s) && s[0] != '0'
    ensures DigitsValue(s) >= 1
  {
    if |s| > 1 {
      LeadingDigitPositive(s[..|s| - 1]);
    }
  }

  /** Reading then printing a canonical numeral gives it back: the two are inverse bijections. */
  lemma {:induction false} ValueNatText(s: string)
    requires IsCanonicalNumeral(s)
    ensures NatText(DigitsValue(s)) == s
  {
    if |s| > 1 {
      var p := s[..|s| - 1];
      LeadingDigitPositive(p);
      ValueNatText(p);
      assert s == p + [s[|s| - 1]];
    }
  }

  /** Hexadecimal digit, lower case, as `JSON.stringify` writes `\u00xx` escapes. */
  function HexDigit(d: nat): char
    requires d < 16
  {
    if d < 10 then DigitChar(d) else ('a' as int + d - 10) as char
  }

  /** The escape `JSON.stringify` writes for one character of a string. */
  function EscapeChar(c: char): string
  {
    if c == '"' then "\\\""
    else if c == '\\' then "\\\\"
    else if c == '\U{8}' then "\\b"
    else if c == '\U{C}' then "\\f"
    else if c == '\n' then "\\n"
    else if c == '\r' then "\\r"
    else if c == '\t' then "\\t"
    else if c < ' ' then "\\u00" + [HexDigit(c as int / 16), HexDigit(c as int % 16)]
    else [c]
  }

  function Escape(s: string): string
  {
    if s == [] then "" else EscapeChar(s[0]) + Escape(s[1..])
  }

  /** `JSON.stringify` of a string. */
  function Quote(s: string): string
  {
    "\"" + Escape(s) + "\""
  }

  /**
   * `JSON.stringify(v)`. An `Error` has no own enumerable properties, so it is written as `{}`;
   * numbers are the model's integers.
   */
  function Json(v: Value): string
    decreases v
  {
    match v
    case Null => "null"
    case Bool(b) => if b then "true" else "false"
    case Num(n) => IntText(n)
    case Str(s) => Quote(s)
    case Obj(fields) => "{" + JsonFields(fields) + "}"
    case Err(_) => "{}"
  }

  /** The members of an object, in field order. */
  function JsonFields(fields: seq<Field>): string
    decreases fields
  {
    if fields == [] then ""
    else
      Quote(fields[0].key) + ":" + Json(fields[0].value)
      + (if |fields| == 1 then "" else "," + JsonFields(fields[1..]))
  }
}
