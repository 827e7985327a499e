/** The parts of `java.lang.Long` the ingestion path relies on:
    `Long.parseLong`, `Long.toString` and 64-bit multiplication. */
module JavaLong {
  import opened Nullable

  const MIN: int := -0x8000_0000_0000_0000
  const MAX: int := 0x7fff_ffff_ffff_ffff
  const MODULUS: int := 0x1_0000_0000_0000_0000

  predicate InRange(v: int) { MIN <= v <= MAX }

  predicate IsDigit(c: char) { '0' <= c <= '9' }

  predicate AllDigits(s: string) { forall i :: 0 <= i < |s| ==> IsDigit(s[i]) }

  function DigitValue(c: char): nat
    requires IsDigit(c)
  {
    (c as int) - ('0' as int)
  }

  function DigitChar(d: nat): (c: char)
    requires d < 10
    ensures IsDigit(c) && DigitValue(c) == d
  {
    ('0' as int + d) as char
  }

  /** The value of a string of decimal digits, most significant first. */
  function DigitsValue(ds: string): nat
    requires AllDigits(ds)
  {
    if ds == [] then 0 else DigitsValue(ds[..|ds| - 1]) * 10 + DigitValue(ds[|ds| - 1])
  }

  /** `Long.parseLong(s)`: `None` stands for the NumberFormatException it
      throws on null, on an empty string, on a lone sign, on any character
      that is not a decimal digit and on a value outside the 64-bit range. */
  function ParseLong(s: Option<string>): (r: Option<int>)
    ensures r.Some? ==> InRange(r.value)
    ensures r.Some? ==> s.Some? && |s.value| > 0
    ensures r.Some? && s.value[0] != '-' && s.value[0] != '+' ==> AllDigits(s.value) && r.value == DigitsValue(s.value)
    ensures s.Some? && |s.value| > 0 && AllDigits(s.value) ==>
      r == if DigitsValue(s.value) <= MAX then Some(DigitsValue(s.value)) else None
    ensures s.Some? && |s.value| > 1 && s.value[0] == '+' && AllDigits(s.value[1..]) ==>
      r == if DigitsValue(s.value[1..]) <= MAX then Some(DigitsValue(s.value[1..])) else None
    ensures s.Some? && |s.value| > 1 && s.value[0] == '-' && AllDigits(s.value[1..]) ==>
      r == if DigitsValue(s.value[1..]) <= -MIN then Some(-(DigitsValue(s.value[1..]) as int)) else None
    ensures s.Some? && |s.value| == 1 && s.value[0] in "+-" ==> r.None?
    ensures s.Some? && |s.value| > 0 && !AllDigits(s.value) && !(s.value[0] in "+-" && AllDigits(s.value[1..])) ==>
      r.None?
  {
    match s
    case None => None
    case Some(text) =>
      if |text| == 0 then None
      else
        var negative := text[0] == '-';
        var digits := if text[0] == '-' || text[0] == '+' then text[1..] else text;
        if |digits| == 0 || !AllDigits(digits) then None
        else
          var magnitude: int := DigitsValue(digits);
          var v := if negative then -magnitude else magnitude;
          if InRange(v) then Some(v) else None
  }

  /** The decimal digits of a natural number, without leading zeros. */
  function DecimalString(n: nat): (s: string)
    ensures |s| > 0 && AllDigits(s)
    ensures DigitsValue(s) == n
  {
    if n < 10 then [DigitChar(n)]
    else
      var prefix := DecimalString(n / 10);
      var s := prefix + [DigitChar(n % 10)];
      assert s[..|s| - 1] == prefix;
      s
  }

  /** `Long.toString(v)`. */
  function LongToString(v: int): string {
    if v < 0 then "-" + DecimalString(-v) else DecimalString(v)
  }

  /** Every long printed by `Long.toString` is read back by `Long.parseLong`. */
  lemma ParseLongToString(v: int)
    requires InRange(v)
    ensures ParseLong(Some(LongToString(v))) == Some(v)
  {
    if v < 0 {
      var text := LongToString(v);
      assert text[1..] == DecimalString(-v);
    }
  }

  /** Two's-complement wrap-around of an integer into the 64-bit range. */
  function Wrap(x: int): (r: int)
    ensures InRange(r)
    ensures (r - x) % MODULUS == 0
    ensures InRange(x) ==> r == x
  {
    (x - MIN) % MODULUS + MIN
  }

  /** Java's `long * long`, which wraps silently on overflow. */
  function MulLong(a: int, b: int): (r: int)
    ensures InRange(r)
    ensures (r - a * b) % MODULUS == 0
    ensures InRange(a * b) ==> r == a * b
  {
    Wrap(a * b)
  }
}
