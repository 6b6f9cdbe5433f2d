/**
 * The few pieces of Java platform arithmetic the snapshots depend on:
 * 64-bit `long` subtraction (elapsed times), 32-bit `int` arithmetic
 * (`String.hashCode`) and the decimal rendering of an `int`
 * (`Integer.toString`, used when a hash is concatenated into a string).
 */
module JavaLang {

  const LONG_MIN: int := -0x8000_0000_0000_0000
  const LONG_MAX: int := 0x7FFF_FFFF_FFFF_FFFF
  const LONG_MODULUS: int := 0x1_0000_0000_0000_0000

  const INT_MIN: int := -0x8000_0000
  const INT_MAX: int := 0x7FFF_FFFF
  const INT_MODULUS: int := 0x1_0000_0000

  predicate IsLong(x: int) { LONG_MIN <= x <= LONG_MAX }

  predicate IsInt(x: int) { INT_MIN <= x <= INT_MAX }

  /** The two's complement `long` that Java produces for the exact value `x`. */
  function WrapLong(x: int): (r: int)
    ensures IsLong(r)
    ensures IsLong(x) ==> r == x
    ensures (x - r) % LONG_MODULUS == 0
  {
    var m := (x - LONG_MIN) % LONG_MODULUS;
    assert (x - LONG_MIN) == LONG_MODULUS * ((x - LONG_MIN) / LONG_MODULUS) + m;
    m + LONG_MIN
  }

  /** Java's `a - b` on two `long` operands. */
  function LongSub(a: int, b: int): (r: int)
    ensures IsLong(r)
    ensures (a - b - r) % LONG_MODULUS == 0
    ensures IsLong(a - b) ==> r == a - b
  {
    WrapLong(a - b)
  }

  /** The two's complement `int` that Java produces for the exact value `x`. */
  function WrapInt(x: int): (r: int)
    ensures IsInt(r)
    ensures IsInt(x) ==> r == x
    ensures (x - r) % INT_MODULUS == 0
  {
    var m := (x - INT_MIN) % INT_MODULUS;
    assert (x - INT_MIN) == INT_MODULUS * ((x - INT_MIN) / INT_MODULUS) + m;
    m + INT_MIN
  }

  /**
   * `String.hashCode`: h = 31 * h + c over the characters, in `int`
   * arithmetic, starting from 0.
   */
  function HashCode(s: string): (h: int)
    ensures IsInt(h)
    ensures |s| == 0 ==> h == 0
  {
    if |s| == 0 then 0
    else WrapInt(31 * HashCode(s[..|s| - 1]) + s[|s| - 1] as int)
  }

  predicate IsDigit(c: char) { '0' <= c <= '9' }

  function DigitChar(d: nat): (c: char)
    requires d < 10
    ensures IsDigit(c)
  {
    ['0', '1', '2', '3', '4', '5', '6', '7', '8', '9'][d]
  }

  function DigitValue(c: char): (d: nat)
    requires IsDigit(c)
    ensures d < 10 && DigitChar(d) == c
  {
    (c as int - '0' as int)
  }

  /** The decimal digits of `n`, most significant first, without leading zeros. */
  function Digits(n: nat): (s: string)
    ensures 0 < |s|
    ensures forall i :: 0 <= i < |s| ==> IsDigit(s[i])
    decreases n
  {
    if n < 10 then [DigitChar(n)] else Digits(n / 10) + [DigitChar(n % 10)]
  }

  /** `Integer.toString(n)`: a minus sign for negative values, then the digits. */
  function IntToString(n: int): (s: string)
    ensures 0 < |s|
    ensures n < 0 <==> s[0] == '-'
  {
    if n < 0 then "-" + Digits(-n) else Digits(n)
  }

  /** The value of a string of decimal digits. */
  function ParseDigits(s: string): (n: nat)
    requires forall i :: 0 <= i < |s| ==> IsDigit(s[i])
  {
    if |s| == 0 then 0
    else 10 * ParseDigits(s[..|s| - 1]) + DigitValue(s[|s| - 1])
  }

  /** The inverse of `IntToString` on its range. */
  function ParseInt(s: string): int
    requires 0 < |s|
    requires s[0] == '-' ==> forall i :: 1 <= i < |s| ==> IsDigit(s[i])
    requires s[0] != '-' ==> forall i :: 0 <= i < |s| ==> IsDigit(s[i])
  {
    if s[0] == '-' then -(ParseDigits(s[1..]) as int) else ParseDigits(s)
  }

  lemma {:induction false} ParseDigitsOfDigits(n: nat)
    ensures ParseDigits(Digits(n)) == n
    decreases n
  {
    var s := Digits(n);
    if n >= 10 {
      ParseDigitsOfDigits(n / 10);
      assert s[..|s| - 1] == Digits(n / 10);
      assert DigitValue(s[|s| - 1]) == n % 10;
    } else {
      assert DigitValue(s[0]) == n;
    }
  }

  /** Decimal rendering loses nothing: the string determines the number. */
  lemma IntToStringRoundTrip(n: int)
    ensures var s := IntToString(n);
      (s[0] == '-' ==> forall i :: 1 <= i < |s| ==> IsDigit(s[i]))
      && (s[0] != '-' ==> forall i :: 0 <= i < |s| ==> IsDigit(s[i]))
      && ParseInt(s) == n
  {
    if n < 0 {
      var d := Digits(-n);
      var s := "-" + d;
      assert IntToString(n) == s;
      assert s[1..] == d;
      assert forall i :: 1 <= i < |s| ==> s[i] == d[i - 1];
      ParseDigitsOfDigits(-n);
    } else {
      assert IntToString(n) == Digits(n);
      ParseDigitsOfDigits(n);
    }
  }

  /** Two different `int`s never render to the same string. */
  lemma IntToStringInjective(a: int, b: int)
    requires IntToString(a) == IntToString(b)
    ensures a == b
  {
    IntToStringRoundTrip(a);
    IntToStringRoundTrip(b);
  }
}
