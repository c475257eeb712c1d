/** The pieces of the .NET base library that the application's decisions rest on:
    `Int32` bounds, `int.TryParse` and `int.ToString()` for decimal text,
    `char.IsWhiteSpace` (behind `[Required]`) and the scheme test of `[Url]`. */
module Runtime {
  import opened Wrappers

  const IntMinValue: int := -2147483648
  const IntMaxValue: int := 2147483647

  /** Values a C# `int` can hold. */
  predicate InInt32Range(n: int) {
    IntMinValue <= n <= IntMaxValue
  }

  /** `char.IsWhiteSpace`: the Unicode space separators, line and paragraph
      separators, and U+0009..U+000D, U+0085, U+00A0. */
  predicate IsWhiteSpace(c: char) {
    || c == ' '
    || ('\t' <= c <= '\r')
    || c == '\U{85}' || c == '\U{A0}' || c == '\U{1680}'
    || ('\U{2000}' <= c <= '\U{200A}')
    || c == '\U{2028}' || c == '\U{2029}' || c == '\U{202F}'
    || c == '\U{205F}' || c == '\U{3000}'
  }

  /** `string.IsNullOrWhiteSpace` on a non-null string: empty, or spaces only. */
  predicate IsBlank(s: string) {
    forall i :: 0 <= i < |s| ==> IsWhiteSpace(s[i])
  }

  predicate IsDigit(c: char) {
    '0' <= c <= '9'
  }

  function DigitValue(c: char): nat
    requires IsDigit(c)
  {
    c as int - '0' as int
  }

  function DigitChar(d: nat): char
    requires d < 10
  {
    ('0' as int + d) as char
  }

  predicate AllDigits(s: string) {
    forall i :: 0 <= i < |s| ==> IsDigit(s[i])
  }

  /** The value of a non-empty run of ASCII decimal digits, read left to right. */
  function ParseDigits(s: string): (r: Option<nat>)
    ensures r.Some? <==> |s| > 0 && AllDigits(s)
  {
    if |s| == 0 || !IsDigit(s[|s| - 1]) then None
    else if |s| == 1 then Some(DigitValue(s[0]))
    else
      match ParseDigits(s[..|s| - 1])
      case None => None
      case Some(v) => Some(10 * v + DigitValue(s[|s| - 1]))
  }

  /** An optional sign followed by decimal digits, with no bound on the value. */
  function ParseInteger(s: string): Option<int> {
    var negative := |s| > 0 && s[0] == '-';
    var digits := if |s| > 0 && (s[0] == '-' || s[0] == '+') then s[1..] else s;
    match ParseDigits(digits)
    case None => None
    case Some(v) => Some(if negative then -(v as int) else v)
  }

  /** `int.TryParse(s, out n)`: `Some(n)` exactly when the text is an integer that
      fits in 32 bits; a null string never parses. */
  function TryParseInt(s: Option<string>): (r: Option<int>)
    ensures r.Some? ==> InInt32Range(r.value)
    ensures s.None? ==> r.None?
  {
    match s
    case None => None
    case Some(text) =>
      match ParseInteger(text)
      case Some(n) => if InInt32Range(n) then Some(n) else None
      case None => None
  }

  /** `n.ToString()` for a non-negative `n`, with no leading zeros. */
  function NatToString(n: nat): (s: string)
    ensures |s| > 0 && AllDigits(s)
    ensures s[0] == '0' ==> n == 0
  {
    if n < 10 then [DigitChar(n)]
    else NatToString(n / 10) + [DigitChar(n % 10)]
  }

  /** `n.ToString()` under a culture whose negative sign is `-` (no digit grouping,
      ASCII digits). */
  function IntToString(n: int): string {
    if n < 0 then "-" + NatToString(-n) else NatToString(n)
  }

  lemma {:induction false} ParseDigitsOfNatToString(n: nat)
    ensures ParseDigits(NatToString(n)) == Some(n)
  {
    if n >= 10 {
      var s := NatToString(n);
      assert s[..|s| - 1] == NatToString(n / 10);
      ParseDigitsOfNatToString(n / 10);
    }
  }

  /** Formatting then parsing gives back the number, for every integer. */
  lemma ParseIntegerOfIntToString(n: int)
    ensures ParseInteger(IntToString(n)) == Some(n)
  {
    if n < 0 {
      assert IntToString(n)[1..] == NatToString(-n);
      ParseDigitsOfNatToString(-n);
    } else {
      ParseDigitsOfNatToString(n);
    }
  }

  /** `int.TryParse(n.ToString())` gives back every C# `int`. */
  lemma TryParseIntOfIntToString(n: int)
    requires InInt32Range(n)
    ensures TryParseInt(Some(IntToString(n))) == Some(n)
  {
    ParseIntegerOfIntToString(n);
  }

  /** Distinct integers have distinct decimal texts. */
  lemma IntToStringInjective(a: int, b: int)
    requires IntToString(a) == IntToString(b)
    ensures a == b
  {
    ParseIntegerOfIntToString(a);
    ParseIntegerOfIntToString(b);
  }

  function AsciiLower(c: char): char {
    if 'A' <= c <= 'Z' then (c as int + 32) as char else c
  }

  /** The key under which `StringComparison.OrdinalIgnoreCase` files a name: its
      ASCII letters lower-cased, so names that differ only in the case of those
      letters fall together. */
  function FoldCase(s: string): (r: string)
    ensures |r| == |s|
    ensures forall i :: 0 <= i < |s| ==> r[i] == AsciiLower(s[i])
  {
    seq(|s|, i requires 0 <= i < |s| => AsciiLower(s[i]))
  }

  /** Folding a folded name changes nothing. */
  lemma FoldCaseIdempotent(s: string)
    ensures FoldCase(FoldCase(s)) == FoldCase(s)
  {
    forall i | 0 <= i < |s| ensures FoldCase(FoldCase(s))[i] == FoldCase(s)[i] {
      assert AsciiLower(AsciiLower(s[i])) == AsciiLower(s[i]);
    }
  }

  /** `s.StartsWith(prefix, StringComparison.OrdinalIgnoreCase)` for ASCII prefixes. */
  predicate StartsWithIgnoreCase(s: string, prefix: string) {
    |prefix| <= |s| && forall i :: 0 <= i < |prefix| ==> AsciiLower(s[i]) == AsciiLower(prefix[i])
  }

  /** The test `[Url]` applies to a non-null string: it must begin with one of the
      schemes http://, https:// or ftp://. */
  predicate HasUrlScheme(s: string) {
    StartsWithIgnoreCase(s, "http://") || StartsWithIgnoreCase(s, "https://")
    || StartsWithIgnoreCase(s, "ftp://")
  }
}
