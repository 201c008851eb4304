/**
 * The few JavaScript string operations the modelled code relies on:
 * `toLowerCase`, the regular-expression class `\s`, `includes` and the
 * decimal rendering of integers in template strings.
 */
module Text {

  /**
   * JavaScript's `\s`: tab, line feed, vertical tab, form feed, carriage
   * return, space, and the wider Unicode space and line-terminator code points.
   */
  predicate IsSpace(c: char) {
    ('\t' <= c <= '\r') || c == ' ' || ('\U{A0}' <= c && IsWideSpace(c))
  }

  predicate IsWideSpace(c: char) {
    || c == '\U{A0}' || c == '\U{1680}' || ('\U{2000}' <= c <= '\U{200A}')
    || c == '\U{2028}' || c == '\U{2029}' || c == '\U{202F}' || c == '\U{205F}'
    || c == '\U{3000}' || c == '\U{FEFF}'
  }

  predicate NoSpace(s: string) {
    forall i :: 0 <= i < |s| ==> !IsSpace(s[i])
  }

  /**
   * The capitals `toLowerCase` folds here: Latin A..Z, the accented Latin-1
   * capitals À..Þ (not ×), Greek Α..Ω, and Cyrillic Ѐ..Я.
   */
  predicate IsCapital(c: char) {
    || ('A' <= c <= 'Z')
    || ('\U{C0}' <= c <= '\U{DE}' && c != '\U{D7}')
    || ('\U{391}' <= c <= '\U{3A9}' && c != '\U{3A2}')
    || ('\U{400}' <= c <= '\U{42F}')
  }

  /** `toLowerCase` on one character; characters that are not capitals above are left as they are. */
  function LowerChar(c: char): (r: char)
    ensures IsSpace(r) <==> IsSpace(c)
    ensures !IsCapital(c) ==> r == c
    ensures IsCapital(c) ==> !IsCapital(r)
    ensures IsCapital(c) && !('\U{400}' <= c <= '\U{40F}') ==> r as int == c as int + 32
  {
    if '\U{400}' <= c <= '\U{40F}' then (c as int + 80) as char
    else if IsCapital(c) then (c as int + 32) as char
    else c
  }

  function Lower(s: string): (r: string)
    ensures |r| == |s|
    ensures forall i :: 0 <= i < |s| ==> r[i] == LowerChar(s[i])
  {
    if s == [] then [] else [LowerChar(s[0])] + Lower(s[1..])
  }

  /** `needle` occurs in `hay` starting at position `i`. */
  predicate OccursAt(hay: string, needle: string, i: nat) {
    i + |needle| <= |hay| && hay[i..i + |needle|] == needle
  }

  /** `hay.includes(needle)`. */
  predicate Includes(hay: string, needle: string) {
    exists i: nat :: i <= |hay| && OccursAt(hay, needle, i)
  }

  function DigitChar(d: nat): (c: char)
    requires d < 10
    ensures '0' <= c <= '9'
  {
    ('0' as int + d) as char
  }

  predicate AllDigits(s: string) {
    forall i :: 0 <= i < |s| ==> '0' <= s[i] <= '9'
  }

  /** The decimal rendering of a non-negative integer, as `String(n)` gives it. */
  function NatToDecimal(n: nat): (s: string)
    ensures |s| >= 1 && AllDigits(s)
    ensures n < 10 <==> |s| == 1
    decreases n
  {
    if n < 10 then [DigitChar(n)] else NatToDecimal(n / 10) + [DigitChar(n % 10)]
  }

  /** The value of a string of decimal digits. */
  function DecimalValue(s: string): nat
    requires AllDigits(s)
  {
    if s == [] then 0 else 10 * DecimalValue(s[..|s| - 1]) + (s[|s| - 1] as int - '0' as int)
  }

  /** Rendering and reading back decimal digits are inverse. */
  lemma {:induction false} DecimalRoundTrip(n: nat)
    ensures DecimalValue(NatToDecimal(n)) == n
    decreases n
  {
    if n >= 10 {
      var s := NatToDecimal(n);
      assert s[..|s| - 1] == NatToDecimal(n / 10);
      DecimalRoundTrip(n / 10);
    }
  }

  /** Different numbers never render alike. */
  lemma NatToDecimalInjective(m: nat, n: nat)
    requires NatToDecimal(m) == NatToDecimal(n)
    ensures m == n
  {
    DecimalRoundTrip(m);
    DecimalRoundTrip(n);
  }

  /** The rendering of an integer in a template string: a minus sign for negatives. */
  function IntToDecimal(n: int): (s: string)
    ensures |s| >= 1
    ensures s[0] == '-' <==> n < 0
    ensures n >= 0 ==> s == NatToDecimal(n)
    ensures n < 0 ==> s[1..] == NatToDecimal(-n)
  {
    if n < 0 then "-" + NatToDecimal(-n) else NatToDecimal(n)
  }
}
