/**
  Decimal numerals as JavaScript writes and reads them for integer-valued numbers:
  the conversion a template literal applies to a number (`${n}`), the value of a run
  of decimal digits, and `parseInt(text, 10)`.
 */
module Decimal {
  import opened Wrappers

  predicate IsDigit(c: char) {
    '0' <= c <= '9'
  }

  predicate AllDigits(s: string) {
    forall k :: 0 <= k < |s| ==> IsDigit(s[k])
  }

  function DigitValue(c: char): (d: nat)
    requires IsDigit(c)
    ensures d < 10
  {
    (c as int) - ('0' as int)
  }

  function DigitChar(d: nat): (c: char)
    requires d < 10
    ensures IsDigit(c) && DigitValue(c) == d
  {
    (('0' as int) + d) as char
  }

  /** The base-10 value of a string of digits, most significant digit first. */
  function DecimalValue(s: string): nat
    requires AllDigits(s)
  {
    if s == [] then 0 else DecimalValue(s[..|s| - 1]) * 10 + DigitValue(s[|s| - 1])
  }

  /** The decimal numeral of a natural number, most significant digit first. */
  function NatToString(n: nat): (r: string)
    ensures |r| > 0
  {
    if n < 10 then [DigitChar(n)] else NatToString(n / 10) + [DigitChar(n % 10)]
  }

  /** String(n) for an integer n: a minus sign for negative n, then the numeral of |n|. */
  function IntToString(n: int): (r: string)
    ensures |r| > 0
  {
    if n < 0 then "-" + NatToString(-n) else NatToString(n)
  }

  /** NatToString writes digits only, with no leading zero, whose value is n. */
  lemma {:induction false} NatToStringMeaning(n: nat)
    ensures AllDigits(NatToString(n))
    ensures |NatToString(n)| > 1 ==> NatToString(n)[0] != '0'
    ensures DecimalValue(NatToString(n)) == n
  {
    if n >= 10 {
      var r := NatToString(n);
      NatToStringMeaning(n / 10);
      assert r[..|r| - 1] == NatToString(n / 10);
    }
  }

  /** IntToString starts with a minus sign exactly for negative n; every other character is a digit. */
  lemma IntToStringShape(n: int)
    ensures IntToString(n)[0] == '-' <==> n < 0
    ensures forall k :: 0 < k < |IntToString(n)| ==> IsDigit(IntToString(n)[k])
    ensures n >= 0 ==> IsDigit(IntToString(n)[0])
  {
    NatToStringMeaning(if n < 0 then -n else n);
  }

  /**
    Reads an optional minus sign followed by a non-empty digit string; anything else is
    rejected. Leading zeros are accepted, so it reads more than IntToString writes.
   */
  function ParseSignedDecimal(s: string): (r: Option<int>)
    ensures r.Some? ==> |s| > 0
  {
    if |s| > 1 && s[0] == '-' && AllDigits(s[1..]) then Some(-(DecimalValue(s[1..]) as int))
    else if |s| > 0 && AllDigits(s) then Some(DecimalValue(s))
    else None
  }

  /**
    The whitespace JavaScript's parseInt skips before a numeral (StrWhiteSpaceChar):
    tab, vertical tab, form feed, space, no-break space, byte-order mark, the other
    space separators of Unicode category Zs, line feed, carriage return, and the line
    and paragraph separators.
   */
  predicate IsJsWhitespace(c: char) {
    || c == '\t' || c == '\U{000B}' || c == '\U{000C}' || c == ' ' || c == '\U{00A0}' || c == '\U{FEFF}'
    || c == '\U{1680}' || ('\U{2000}' <= c <= '\U{200A}') || c == '\U{202F}' || c == '\U{205F}' || c == '\U{3000}'
    || c == '\n' || c == '\r' || c == '\U{2028}' || c == '\U{2029}'
  }

  /** The index of the first character at or after `from` that is not whitespace. */
  function SkipWhitespace(s: string, from: nat): (k: nat)
    requires from <= |s|
    ensures from <= k <= |s|
    decreases |s| - from
  {
    if from == |s| || !IsJsWhitespace(s[from]) then from else SkipWhitespace(s, from + 1)
  }

  /** The end of the run of digits that starts at `from` (`from` itself when there is none). */
  function SkipDigits(s: string, from: nat): (k: nat)
    requires from <= |s|
    ensures from <= k <= |s|
    decreases |s| - from
  {
    if from == |s| || !IsDigit(s[from]) then from else SkipDigits(s, from + 1)
  }

  /**
    parseInt(s, 10): skip leading whitespace, take an optional sign, then the longest run
    of digits; None stands for NaN, the result when that run is empty.
   */
  function JsParseInt(s: string): (r: Option<int>)
  {
    var t := SkipWhitespace(s, 0);
    var start := if t < |s| && (s[t] == '-' || s[t] == '+') then t + 1 else t;
    var stop := SkipDigits(s, start);
    if stop == start then None
    else
      SkipDigitsMeaning(s, start);
      var magnitude: int := DecimalValue(s[start..stop]);
      Some(if t < |s| && s[t] == '-' then -magnitude else magnitude)
  }

  /** The index of the first occurrence of `c` at or after `from`, or |s| when there is none. */
  function FindChar(s: string, c: char, from: nat): (k: nat)
    requires from <= |s|
    ensures from <= k <= |s|
    decreases |s| - from
  {
    if from == |s| || s[from] == c then from else FindChar(s, c, from + 1)
  }

  /** SkipDigits stops at the first non-digit at or after `from`. */
  lemma {:induction false} SkipDigitsMeaning(s: string, from: nat)
    requires from <= |s|
    ensures forall j :: from <= j < SkipDigits(s, from) ==> IsDigit(s[j])
    ensures SkipDigits(s, from) < |s| ==> !IsDigit(s[SkipDigits(s, from)])
    decreases |s| - from
  {
    if from < |s| && IsDigit(s[from]) {
      SkipDigitsMeaning(s, from + 1);
    }
  }

  /** FindChar stops at the first `c` at or after `from`. */
  lemma {:induction false} FindCharMeaning(s: string, c: char, from: nat)
    requires from <= |s|
    ensures forall j :: from <= j < FindChar(s, c, from) ==> s[j] != c
    ensures FindChar(s, c, from) < |s| ==> s[FindChar(s, c, from)] == c
    decreases |s| - from
  {
    if from < |s| && s[from] != c {
      FindCharMeaning(s, c, from + 1);
    }
  }

  /**
    Reads a signed numeral that ends at the first `stop` character: the value and the
    text from that character on. Fails when there is no `stop` or the numeral is malformed.
   */
  function ReadSignedUntil(s: string, stop: char): Option<(int, string)>
  {
    var k := FindChar(s, stop, 0);
    if k == |s| then None
    else match ParseSignedDecimal(s[..k])
      case None => None
      case Some(v) => Some((v, s[k..]))
  }

  // ---------------------------------------------------------------------------
  // Round trips

  /** ParseSignedDecimal inverts IntToString. */
  lemma IntToStringRoundTrip(n: int)
    ensures ParseSignedDecimal(IntToString(n)) == Some(n)
  {
    var r := IntToString(n);
    NatToStringMeaning(if n < 0 then -n else n);
    if n < 0 {
      assert r[1..] == NatToString(-n);
    }
  }

  /** parseInt reads a plain digit string as its decimal value: never NaN, never negative. */
  lemma DigitsParse(s: string)
    requires |s| > 0 && AllDigits(s)
    ensures JsParseInt(s) == Some(DecimalValue(s))
  {
    assert SkipWhitespace(s, 0) == 0;
    SkipDigitsMeaning(s, 0);
    assert SkipDigits(s, 0) == |s|;
    assert s[0..|s|] == s;
  }

  /** A numeral followed by text that starts with `stop` is read back with that text. */
  lemma ReadSignedUntilNumeral(n: int, rest: string, stop: char)
    requires |rest| > 0 && rest[0] == stop && !IsDigit(stop) && stop != '-'
    ensures ReadSignedUntil(IntToString(n) + rest, stop) == Some((n, rest))
  {
    var num := IntToString(n);
    var s := num + rest;
    IntToStringShape(n);
    var k := FindChar(s, stop, 0);
    FindCharMeaning(s, stop, 0);
    assert s[|num|] == stop;
    assert k == |num|;
    assert s[..k] == num;
    assert s[k..] == rest;
    IntToStringRoundTrip(n);
  }
}
