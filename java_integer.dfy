/**
 * `Integer.parseInt(String)` (radix 10) and `Integer.toString(int)` of
 * `java.lang.Integer`, over ASCII decimal digits.
 */
module JavaInteger {
  import opened Wrappers

  /** Bounds of Java's 32-bit `int`. */
  const MinInt: int := -0x8000_0000
  const MaxInt: int := 0x7fff_ffff

  predicate InRange(v: int)
  {
    MinInt <= v <= MaxInt
  }

  predicate IsDigit(c: char)
  {
    '0' <= c <= '9'
  }

  predicate AllDigits(s: string)
  {
    forall i :: 0 <= i < |s| ==> IsDigit(s[i])
  }

  /** The value of a string of decimal digits, most significant first. */
  function DigitsValue(d: string): nat
    requires AllDigits(d)
  {
    if |d| == 0 then 0
    else DigitsValue(d[..|d| - 1]) * 10 + (d[|d| - 1] as int - '0' as int)
  }

  /**
   * The text shape `Integer.parseInt` accepts before its range check:
   * an optional `+` or `-` followed by one or more decimal digits.
   */
  predicate IsIntegerSyntax(s: string)
  {
    (|s| > 0 && AllDigits(s))
    || (|s| > 1 && (s[0] == '+' || s[0] == '-') && AllDigits(s[1..]))
  }

  /** The exact (unbounded) value such a text denotes. */
  function SyntaxValue(s: string): int
    requires IsIntegerSyntax(s)
  {
    var magnitude: int := if AllDigits(s) then DigitsValue(s) else DigitsValue(s[1..]);
    if !AllDigits(s) && s[0] == '-' then -magnitude else magnitude
  }

  /**
   * `Integer.parseInt(s)`: `None` where Java throws `NumberFormatException`.
   * The body follows the JDK: an empty text fails; a first character
   * below '0' must be a sign and may not stand alone; every remaining
   * character must be a digit; the value must fit in an `int`.
   */
  function ParseInt(s: string): (r: Option<int>)
    ensures r.Some? <==> IsIntegerSyntax(s) && InRange(SyntaxValue(s))
    ensures r.Some? ==> r.value == SyntaxValue(s)
  {
    if |s| == 0 then None
    else
      var first := s[0];
      if first < '0' && first != '-' && first != '+' then None
      else if first < '0' && |s| == 1 then None
      else
        var negative := first == '-';
        var digits := if first < '0' then s[1..] else s;
        if !AllDigits(digits) then None
        else
          var magnitude: int := DigitsValue(digits);
          var value := if negative then -magnitude else magnitude;
          if MinInt <= value <= MaxInt then Some(value) else None
  }

  /** The character of a digit value. */
  function DigitChar(d: nat): (c: char)
    requires d < 10
    ensures IsDigit(c) && c as int - '0' as int == d
  {
    ('0' as int + d) as char
  }

  /** The decimal digits of `n`, with no leading zero. */
  function NatToString(n: nat): (r: string)
    ensures |r| > 0 && AllDigits(r)
    ensures DigitsValue(r) == n
    ensures r[0] == '0' ==> r == "0"
  {
    if n < 10 then [DigitChar(n)]
    else
      var prefix := NatToString(n / 10);
      var r := prefix + [DigitChar(n % 10)];
      assert r[..|r| - 1] == prefix;
      r
  }

  /** `Integer.toString(n)`: a `-` before negative values, no `+`, no leading zeros. */
  function IntToString(n: int): string
  {
    if n < 0 then "-" + NatToString(-n) else NatToString(n)
  }

  /**
   * `parseInt` reads back what `toString` writes: the same value for every
   * `int`, and a `NumberFormatException` for any integer outside that range.
   */
  lemma ParseIntToString(n: int)
    ensures ParseInt(IntToString(n)) == if InRange(n) then Some(n) else None
  {
  }
}
