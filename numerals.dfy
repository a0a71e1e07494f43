/** Kotlin `Int` behaviour the workout log depends on: 32-bit wrap-around of
    addition (used by `sumOf`), `String.toInt()` / `String.toIntOrNull()` in
    radix 10 (used for every numeric console field) and `Int.toString()`
    (used by string templates in the summaries). */
module Numerals {

  datatype Option<+T> = None | Some(value: T)

  /** The values a Kotlin `Int` can hold. */
  predicate IsInt32(n: int) {
    -0x8000_0000 <= n <= 0x7fff_ffff
  }

  /** The `Int` that two's-complement arithmetic yields for the exact value `n`. */
  function ToInt32(n: int): (r: int)
    ensures IsInt32(r)
    ensures IsInt32(n) ==> r == n
  {
    (n + 0x8000_0000) % 0x1_0000_0000 - 0x8000_0000
  }

  /** Wrapping after every addition gives the same `Int` as wrapping once at the end. */
  lemma WrapAdd(a: int, b: int)
    ensures ToInt32(ToInt32(a) + b) == ToInt32(a + b)
  {
  }

  predicate IsDigit(c: char) {
    '0' <= c <= '9'
  }

  predicate AllDigits(s: string) {
    forall i :: 0 <= i < |s| ==> IsDigit(s[i])
  }

  function DigitChar(d: nat): (c: char)
    requires d < 10
    ensures IsDigit(c) && c as int - '0' as int == d
  {
    ('0' as int + d) as char
  }

  /** The value of a string of decimal digits, most significant first. */
  function DigitsValue(s: string): nat
    requires AllDigits(s)
  {
    if s == [] then 0
    else 10 * DigitsValue(s[..|s| - 1]) + (s[|s| - 1] as int - '0' as int)
  }

  /** Decimal text of a natural number, as `Int.toString()` writes it. */
  function NatToString(n: nat): (s: string)
    ensures |s| >= 1 && AllDigits(s)
    ensures DigitsValue(s) == n
    ensures s[0] == '0' <==> n == 0
    ensures |s| == 1 || s[0] != '0'
    decreases n
  {
    var prefix := if n < 10 then [] else NatToString(n / 10);
    var s := prefix + [DigitChar(n % 10)];
    assert s[..|s| - 1] == prefix;
    s
  }

  /** Decimal text of an `Int`, with a leading '-' for negative values. */
  function IntToString(n: int): (s: string)
    ensures |s| >= 1
    ensures (s[0] == '-') <==> n < 0
    ensures n < 0 ==> |s| >= 2 && AllDigits(s[1..])
    ensures n >= 0 ==> AllDigits(s)
  {
    if n < 0 then "-" + NatToString(-n) else NatToString(n)
  }

  /** A decimal numeral: at least one digit, optionally after one '-' or '+'. */
  predicate Numeral(s: string) {
    || (|s| >= 1 && AllDigits(s))
    || (|s| >= 2 && (s[0] == '-' || s[0] == '+') && AllDigits(s[1..]))
  }

  /** The number a numeral denotes: its digits' value, negated after a '-'. */
  function NumeralValue(s: string): int
    requires Numeral(s)
  {
    if s[0] == '-' then -(DigitsValue(s[1..]) as int)
    else if s[0] == '+' then DigitsValue(s[1..])
    else DigitsValue(s)
  }

  /** `String.toIntOrNull()` in radix 10: an optional leading '-' or '+',
      then at least one decimal digit, and a value that fits in an `Int`.
      Anything else, the empty string included, gives `None`; `toInt()`
      throws where this gives `None`. */
  function ParseInt(s: string): (r: Option<int>)
    ensures r.Some? <==> Numeral(s) && IsInt32(NumeralValue(s))
    ensures r.Some? ==> r.value == NumeralValue(s) && IsInt32(r.value)
    ensures r.Some? && r.value < 0 ==> s[0] == '-'
  {
    if |s| == 0 then None
    else if s[0] == '-' || s[0] == '+' then
      if |s| == 1 || !AllDigits(s[1..]) then None
      else
        var magnitude: int := DigitsValue(s[1..]);
        var v: int := if s[0] == '-' then -magnitude else magnitude;
        if IsInt32(v) then Some(v) else None
    else if AllDigits(s) && IsInt32(DigitsValue(s)) then Some(DigitsValue(s))
    else None
  }

  /** Every `Int` written by `toString()` reads back unchanged through `toInt()`. */
  lemma ParseIntToString(n: int)
    requires IsInt32(n)
    ensures ParseInt(IntToString(n)) == Some(n)
  {
    var s := IntToString(n);
    if n < 0 {
      var digits := NatToString(-n);
      assert s == "-" + digits && s[1..] == digits;
      assert Numeral(s) && NumeralValue(s) == n;
    } else {
      assert Numeral(s) && NumeralValue(s) == n;
    }
  }
}
