/**
 * The string primitives the handlers depend on: ASCII lower-casing (for the
 * gin mode), Go's `strconv.Atoi` for the `:page` and `:id` route parameters,
 * and decimal formatting of integers (for `%d` in response messages).
 */
module Text {
  import opened Base

  const MinInt64: int := -0x8000_0000_0000_0000
  const MaxInt64: int := 0x7fff_ffff_ffff_ffff

  predicate IsUpperAscii(c: char) { 'A' <= c <= 'Z' }

  function LowerChar(c: char): char
  {
    if IsUpperAscii(c) then (c as int + 32) as char else c
  }

  /** Lower-cases the ASCII letters of `s` and leaves every other character alone. */
  function ToLowerAscii(s: string): (r: string)
    ensures |r| == |s|
    ensures forall i :: 0 <= i < |r| ==> !IsUpperAscii(r[i])
    ensures forall i :: 0 <= i < |s| && !IsUpperAscii(s[i]) ==> r[i] == s[i]
    ensures forall i :: 0 <= i < |s| && IsUpperAscii(s[i]) ==> r[i] as int == s[i] as int + ('a' as int - 'A' as int)
  {
    seq(|s|, i requires 0 <= i < |s| => LowerChar(s[i]))
  }

  lemma ToLowerAsciiIdempotent(s: string)
    ensures ToLowerAscii(ToLowerAscii(s)) == ToLowerAscii(s)
  {
  }

  /** A string without upper-case ASCII letters is its own lower-case form. */
  lemma ToLowerAsciiFixes(s: string)
    requires forall i :: 0 <= i < |s| ==> !IsUpperAscii(s[i])
    ensures ToLowerAscii(s) == s
  {
  }

  predicate IsDigit(c: char) { '0' <= c <= '9' }

  predicate AllDigits(s: string) { forall i :: 0 <= i < |s| ==> IsDigit(s[i]) }

  function DigitValue(c: char): nat
    requires IsDigit(c)
  {
    c as int - '0' as int
  }

  function DigitChar(d: nat): (c: char)
    requires d < 10
    ensures IsDigit(c) && DigitValue(c) == d
  {
    ('0' as int + d) as char
  }

  /** The value of a string of decimal digits, most significant first. */
  function DecimalValue(s: string): nat
    requires AllDigits(s)
  {
    if |s| == 0 then 0 else 10 * DecimalValue(s[..|s| - 1]) + DigitValue(s[|s| - 1])
  }

  /** The digits after an optional leading `+` or `-`. */
  function Unsigned(s: string): string
  {
    if |s| > 0 && (s[0] == '+' || s[0] == '-') then s[1..] else s
  }

  /**
   * `strconv.Atoi` on a 64-bit platform: an optional sign followed by at
   * least one ASCII digit; any other character, an empty digit string or a
   * value outside the int64 range is an error.
   */
  function ParseInt(s: string): (r: Option<int>)
    ensures r.Some? ==> |Unsigned(s)| > 0 && AllDigits(Unsigned(s))
    ensures r.Some? ==> MinInt64 <= r.value <= MaxInt64
    ensures r.Some? && r.value < 0 ==> s[0] == '-'
    ensures r.Some? ==> (if s[0] == '-' then -r.value else r.value) == DecimalValue(Unsigned(s))
    ensures |Unsigned(s)| == 0 || !AllDigits(Unsigned(s)) ==> r.None?
    ensures |Unsigned(s)| > 0 && AllDigits(Unsigned(s)) ==>
              var magnitude: int := DecimalValue(Unsigned(s));
              MinInt64 <= (if s[0] == '-' then -magnitude else magnitude) <= MaxInt64 ==> r.Some?
  {
    var digits := Unsigned(s);
    if |digits| == 0 || !AllDigits(digits) then None
    else
      var magnitude: int := DecimalValue(digits);
      var n: int := if s[0] == '-' then -magnitude else magnitude;
      if MinInt64 <= n <= MaxInt64 then Some(n) else None
  }

  /** Decimal digits of `n` without leading zeros (Go's `%d` of a non-negative value). */
  function FormatNat(n: nat): (r: string)
    ensures |r| > 0 && AllDigits(r)
    ensures DecimalValue(r) == n
    ensures r[0] == '0' ==> n == 0
  {
    if n < 10 then [DigitChar(n)]
    else
      var prefix := FormatNat(n / 10);
      var r := prefix + [DigitChar(n % 10)];
      assert r[..|r| - 1] == prefix;
      r
  }

  /** Go's `%d` of an integer: a minus sign before the digits of a negative value. */
  function FormatInt(n: int): (r: string)
    ensures |r| > 0
    ensures n < 0 <==> r[0] == '-'
  {
    if n < 0 then "-" + FormatNat(-n) else FormatNat(n)
  }

  /** Every int64 value formatted with `%d` is read back unchanged by `Atoi`. */
  lemma ParseFormatRoundTrip(n: int)
    requires MinInt64 <= n <= MaxInt64
    ensures ParseInt(FormatInt(n)) == Some(n)
  {
  }

  /** A sign is consumed once only: `Atoi` rejects a doubled sign. */
  lemma ParseIntRejectsDoubleSign(s: string)
    requires |s| >= 2 && (s[0] == '+' || s[0] == '-') && (s[1] == '+' || s[1] == '-')
    ensures ParseInt(s) == None
  {
  }
}
