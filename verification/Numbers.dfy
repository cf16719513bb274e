/** Number literals and the numbers they denote; rounding of decimals to doubles is not modelled. */
module Numbers {
  import opened Text

  /** A double, without rounding: finite values are exact reals, and zero is signed. */
  datatype Number = NaN | Infinity(negative: bool) | NegZero | Fin(value: real)

  function DigitValue(c: char): nat {
    if IsDigit(c) then (c as int) - ('0' as int)
    else if 'a' <= c <= 'f' then (c as int) - ('a' as int) + 10
    else if 'A' <= c <= 'F' then (c as int) - ('A' as int) + 10
    else 0
  }

  function Digits(s: string, base: nat): nat {
    if s == "" then 0 else Digits(s[..|s| - 1], base) * base + DigitValue(s[|s| - 1])
  }

  const MIN_INT32: int := -0x8000_0000
  const MAX_INT32: int := 0x7fff_ffff

  function Magnitude(text: string): string {
    if HasPrefix(text, "-") then text[1..] else text
  }

  function IntegerOf(text: string): int {
    var body := Magnitude(text);
    var n := if HasPrefix(body, "0x") then Digits(body[2..], 16) else Digits(body, 10);
    if HasPrefix(text, "-") then -(n as int) else n
  }

  /** An integer token's value, unless it does not fit 32 bits. */
  function ParseInt32(text: string): (v: Option<int>)
    ensures v.Some? <==> MIN_INT32 <= IntegerOf(text) <= MAX_INT32
  {
    var n := IntegerOf(text);
    if MIN_INT32 <= n <= MAX_INT32 then Some(n) else None
  }

  function Pow10(n: nat): (p: real)
    ensures p > 0.0
  {
    if n == 0 then 1.0 else 10.0 * Pow10(n - 1)
  }

  function Pow2(n: nat): (p: real)
    ensures p > 0.0
  {
    if n == 0 then 1.0 else 2.0 * Pow2(n - 1)
  }

  /** The position of the first character of s that is a or b. */
  function IndexOfEither(s: string, a: char, b: char): (i: nat)
    ensures i <= |s|
  {
    if s == "" || s[0] == a || s[0] == b then 0 else 1 + IndexOfEither(s[1..], a, b)
  }

  /** The value of digits with at most one decimal point. */
  function Decimal(s: string): real {
    var dot := IndexOfEither(s, '.', '.');
    if dot == |s| then Digits(s, 10) as real
    else Digits(s[..dot] + s[dot + 1..], 10) as real / Pow10(|s| - dot - 1)
  }

  function Scale(x: real, e: int): real {
    if e >= 0 then x * Pow10(e) else x / Pow10(-e)
  }

  function UnsignedReal(s: string): real {
    var e := IndexOfEither(s, 'e', 'E');
    if e == |s| then Decimal(s)
    else
      var exponent := s[e + 1..];
      var digits := if HasPrefix(exponent, "-") || HasPrefix(exponent, "+") then exponent[1..] else exponent;
      var n := Digits(digits, 10) as int;
      Scale(Decimal(s[..e]), if HasPrefix(exponent, "-") then -n else n)
  }

  /** A float token's value; None when it exceeds every finite double. */
  function ParseFloat64(text: string): Option<Number> {
    var x := UnsignedReal(Magnitude(text));
    if x >= Pow2(1024) - Pow2(970) then None
    else if HasPrefix(text, "-") then Some(if x == 0.0 then NegZero else Fin(-x))
    else Some(Fin(x))
  }
}
