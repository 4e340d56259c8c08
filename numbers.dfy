/** The JVM integer types the program uses, their decimal text forms
    (`toString`, `toLongOrNull`) and the two pieces of `Long` arithmetic whose
    behaviour differs from mathematical integers: wrap-around on overflow and
    division that truncates toward zero. */
module Numbers {
  import opened Wrappers
  import opened Text

  const LONG_MIN: int := -0x8000_0000_0000_0000
  const LONG_MAX: int := 0x7FFF_FFFF_FFFF_FFFF
  const TWO_TO_64: int := 0x1_0000_0000_0000_0000

  /** Kotlin `Long`. */
  newtype Long = x: int | -0x8000_0000_0000_0000 <= x <= 0x7FFF_FFFF_FFFF_FFFF

  /** Kotlin `Int`. */
  newtype Int32 = x: int | -0x8000_0000 <= x <= 0x7FFF_FFFF

  predicate AllDigits(s: string) {
    forall i :: 0 <= i < |s| ==> IsAsciiDigit(s[i])
  }

  function DigitChar(d: int): (c: char)
    requires 0 <= d < 10
    ensures IsAsciiDigit(c) && c as int - '0' as int == d
  {
    ('0' as int + d) as char
  }

  /** The value of a string of decimal digits, most significant digit first. */
  function DigitsValue(s: string): nat
    requires AllDigits(s)
    decreases |s|
  {
    if s == [] then 0
    else DigitsValue(s[..|s| - 1]) * 10 + (s[|s| - 1] as int - '0' as int)
  }

  /** The decimal digits of `n`, without leading zeros. */
  function NatDigits(n: nat): (s: string)
    ensures |s| >= 1 && AllDigits(s)
    ensures |s| > 1 ==> s[0] != '0'
    decreases n
  {
    if n < 10 then [DigitChar(n)] else NatDigits(n / 10) + [DigitChar(n % 10)]
  }

  /** Reading back the digits of `n` gives `n`. */
  lemma {:induction false} DigitsValueOfNatDigits(n: nat)
    ensures DigitsValue(NatDigits(n)) == n
  {
    if n >= 10 {
      var s := NatDigits(n);
      assert s[..|s| - 1] == NatDigits(n / 10);
      DigitsValueOfNatDigits(n / 10);
    }
  }

  /** `Long.toString()` and `Int.toString()`: a minus sign for negative
      values, then the digits of the magnitude. */
  function Decimal(x: int): (s: string)
    ensures |s| >= 1
    ensures s[0] == '-' <==> x < 0
    ensures x < 0 ==> |s| >= 2 && AllDigits(s[1..])
    ensures x >= 0 ==> AllDigits(s)
    ensures x >= 0 && |s| > 1 ==> s[0] != '0'
    ensures x < 0 ==> s[1] != '0'
  {
    if x < 0 then
      DigitsValueOfNatDigits(-x);
      "-" + NatDigits(-x)
    else NatDigits(x)
  }

  /** `String.toLongOrNull()`: an optional '+' or '-' followed by at least one
      decimal digit, the value lying in the `Long` range; anything else gives
      null. */
  function ParseLong(s: string): (r: Option<Long>)
    ensures r.Some? ==> |s| >= 1 && AllDigits(s[1..])
    ensures r.Some? ==> s[0] == '+' || s[0] == '-' || IsAsciiDigit(s[0])
    ensures r.Some? ==> IsAsciiDigit(s[0]) || |s| >= 2
    ensures r.Some? && s[0] == '-' ==> r.value <= 0
    ensures r.Some? && s[0] != '-' ==> r.value >= 0
    ensures r.Some? && IsAsciiDigit(s[0]) ==> r.value as int == DigitsValue(s)
    ensures r.Some? && s[0] == '+' ==> r.value as int == DigitsValue(s[1..])
    ensures r.Some? && s[0] == '-' ==> r.value as int == -(DigitsValue(s[1..]) as int)
    ensures s != [] && AllDigits(s) && DigitsValue(s) <= LONG_MAX ==> r.Some?
    ensures |s| >= 2 && s[0] == '+' && AllDigits(s[1..]) && DigitsValue(s[1..]) <= LONG_MAX ==> r.Some?
    ensures |s| >= 2 && s[0] == '-' && AllDigits(s[1..]) && DigitsValue(s[1..]) <= -LONG_MIN ==> r.Some?
  {
    if s == [] then None
    else if s[0] < '0' then
      if |s| == 1 then None
      else if s[0] == '-' then
        if AllDigits(s[1..]) && DigitsValue(s[1..]) <= -LONG_MIN
        then Some((-(DigitsValue(s[1..]) as int)) as Long) else None
      else if s[0] == '+' then
        if AllDigits(s[1..]) && DigitsValue(s[1..]) <= LONG_MAX
        then Some(DigitsValue(s[1..]) as Long) else None
      else None
    else if AllDigits(s) && DigitsValue(s) <= LONG_MAX then Some(DigitsValue(s) as Long)
    else None
  }

  /** `toLongOrNull` reads back what `toString` writes, for every `Long`. */
  lemma ParseLongDecimal(x: Long)
    ensures ParseLong(Decimal(x as int)) == Some(x)
  {
    var s := Decimal(x as int);
    if x < 0 {
      assert s[1..] == NatDigits(-(x as int));
      DigitsValueOfNatDigits(-(x as int));
    } else {
      DigitsValueOfNatDigits(x as int);
    }
  }

  /** Two's-complement wrap-around of an exact result into the `Long` range. */
  function WrapLong(x: int): (r: Long)
    ensures LONG_MIN <= x <= LONG_MAX ==> r as int == x
    ensures (x - r as int) % TWO_TO_64 == 0
  {
    ((x - LONG_MIN) % TWO_TO_64 + LONG_MIN) as Long
  }

  /** Kotlin integer division, which truncates toward zero (Dafny's `/`
      rounds toward negative infinity for a positive divisor). */
  function TruncDiv(a: int, b: int): (q: int)
    requires b > 0
    ensures a >= 0 ==> 0 <= q && q * b <= a < q * b + b
    ensures a < 0 ==> q <= 0 && a <= q * b < a + b
  {
    if a >= 0 then a / b else -((-a) / b)
  }
}
