// Numbers of the shell's arithmetic: 64-bit wrapping integers, exponentiation by squaring, and
// integer constants in any base from 2 to 64.

module ArithNumbers {
  import opened Basics

  const TWO63: int := 0x8000_0000_0000_0000
  const I64_MIN: int := -TWO63
  const I64_MAX: int := TWO63 - 1
  const U32_MAX: int := 0xFFFF_FFFF

  type i64 = x: int | I64_MIN <= x <= I64_MAX

  datatype ArithError =
    | OperandExpected
    | TrailingText
    | MissingColon
    | MissingParenthesis
    | MissingBracket
    | NotAVariable
    | DivisionByZero
    | NegativeExponent
    | NestingTooDeep
    | RecursionTooDeep
    | InvalidBase
    | InvalidConstant
    | ValueTooGreat

  datatype Parsed = Number(value: i64) | Malformed(error: ArithError)

  // ----- Wrap-around -----

  /** The 64-bit two's-complement integer congruent to `x`. */
  function Wrap(x: int): i64 {
    (x + TWO63) % TWO64 - TWO63
  }

  lemma WrapShift(x: int, k: int)
    ensures Wrap(x + TWO64 * k) == Wrap(x)
  {
  }

  lemma WrapSmall(x: i64)
    ensures Wrap(x) == x
  {
  }

  /** How far `x` is from its wrapped value, in multiples of 2^64. */
  function Turns(x: int): int {
    (x + TWO63) / TWO64
  }

  lemma WrapTurns(x: int)
    ensures x == Wrap(x) + TWO64 * Turns(x)
  {
  }

  /** Wrapping a factor early does not change a wrapped product. */
  lemma WrapFactor(x: int, y: int)
    ensures Wrap(Wrap(x) * y) == Wrap(x * y)
  {
    WrapTurns(x);
    var w, k := Wrap(x), Turns(x);
    assert x * y == w * y + TWO64 * (k * y) by {
      assert (w + TWO64 * k) * y == w * y + TWO64 * k * y;
    }
    WrapShift(w * y, k * y);
  }

  lemma WrapSummand(x: int, y: int)
    ensures Wrap(Wrap(x) + y) == Wrap(x + y)
  {
    WrapTurns(x);
    WrapShift(Wrap(x) + y, Turns(x));
  }

  // ----- Powers -----

  function Pow(b: int, e: nat): int {
    if e == 0 then 1 else b * Pow(b, e - 1)
  }

  lemma {:induction false} PowWrapped(b: int, e: nat)
    ensures Wrap(Pow(Wrap(b), e)) == Wrap(Pow(b, e))
  {
    if e > 0 {
      var w := Wrap(b);
      PowWrapped(b, e - 1);
      calc {
        Wrap(Pow(w, e));
        { WrapFactor(b, Pow(w, e - 1)); }
        Wrap(b * Pow(w, e - 1));
        { Commute(b, Pow(w, e - 1)); WrapFactor(Pow(w, e - 1), b); }
        Wrap(Wrap(Pow(w, e - 1)) * b);
        Wrap(Wrap(Pow(b, e - 1)) * b);
        { Commute(b, Pow(b, e - 1)); WrapFactor(Pow(b, e - 1), b); }
        Wrap(Pow(b, e));
      }
    }
  }

  lemma Commute(x: int, y: int)
    ensures x * y == y * x
  {
  }

  lemma {:induction false} PowSquare(b: int, e: nat)
    ensures Pow(b * b, e) == Pow(b, 2 * e)
  {
    if e > 0 {
      PowSquare(b, e - 1);
      assert Pow(b, 2 * e) == b * (b * Pow(b, 2 * (e - 1)));
      assert b * (b * Pow(b, 2 * (e - 1))) == (b * b) * Pow(b * b, e - 1);
    }
  }

  function WrappingMul(x: i64, y: i64): i64 {
    Wrap(x * y)
  }

  /** What the squaring loop still has to produce. */
  function Remaining(result: int, b: int, e: nat): i64 {
    Wrap(result * Pow(b, e))
  }

  /** One round of exponentiation by squaring keeps the wrapped product. */
  lemma SquareStep(result: i64, b: i64, e: nat)
    ensures Remaining(if e % 2 == 1 then WrappingMul(result, b) else result, WrappingMul(b, b), e / 2) ==
            Remaining(result, b, e)
  {
    hide Wrap;
    var odd, half := e % 2 == 1, e / 2;
    var r := if odd then result * b else result;
    var p, w := Pow(b * b, half), Pow(Wrap(b * b), half);
    PowSquare(b, half);
    assert result * Pow(b, e) == r * p by {
      if odd {
        assert Pow(b, e) == b * Pow(b, 2 * half);
        assert result * (b * p) == (result * b) * p;
      }
    }
    calc {
      Wrap((if odd then Wrap(result * b) else result) * w);
      { if odd { WrapFactor(result * b, w); } }
      Wrap(r * w);
      { Commute(r, w); WrapFactor(w, r); }
      Wrap(Wrap(w) * r);
      { PowWrapped(b * b, half); }
      Wrap(Wrap(p) * r);
      { WrapFactor(p, r); Commute(r, p); }
      Wrap(r * p);
    }
  }

  lemma RemainingEnds(result: i64, b: int, e: nat)
    ensures Remaining(1, b, e) == Wrap(Pow(b, e)) && Remaining(result, b, 0) == result
  {
    assert result * 1 == result;
  }

  /** Exponentiation by squaring on wrapping integers is the true power, reduced once. A negative
      exponent, which the evaluator rejects before calling this, leaves 1. */
  method WrappingPower(start: i64, power: i64) returns (result: i64)
    ensures power >= 0 ==> result == Wrap(Pow(start, power))
    ensures power < 0 ==> result == 1
  {
    hide Remaining, Pow, Wrap, WrappingMul;
    var base, exponent := start, power;
    result := 1;
    RemainingEnds(1, start, if power >= 0 then power else 0);
    while exponent > 0
      invariant power >= 0 ==> exponent >= 0 && Remaining(result, base, exponent) == Wrap(Pow(start, power))
      invariant power < 0 ==> exponent == power && result == 1
      decreases exponent
    {
      SquareStep(result, base, exponent);
      if exponent % 2 == 1 {
        result := WrappingMul(result, base);
      }
      base := WrappingMul(base, base);
      exponent := exponent / 2;
    }
    RemainingEnds(result, base, 0);
  }

  // ----- Digits -----

  predicate IsDigit(c: char) {
    '0' <= c <= '9'
  }

  predicate AllDigits(s: string) {
    forall i :: 0 <= i < |s| ==> IsDigit(s[i])
  }

  /** The number a string of decimal digits denotes, without any width. */
  function DecimalValue(s: string): nat
    requires AllDigits(s)
  {
    if s == "" then 0 else 10 * DecimalValue(s[..|s| - 1]) + (s[|s| - 1] as int - '0' as int)
  }

  /** The digit a character stands for, as `BASE#DIGITS` reads it. */
  function DigitValue(c: char, base: nat): Option<nat> {
    if '0' <= c <= '9' then Some(c as int - '0' as int)
    else if 'a' <= c <= 'z' then Some(c as int - 'a' as int + 10)
    else if 'A' <= c <= 'Z' then Some(c as int - 'A' as int + if base <= 36 then 10 else 36)
    else if c == '@' then Some(62)
    else if c == '_' then Some(63)
    else None
  }

  /** The error of the first character that is not a digit of `base`, if there is one. */
  function DigitError(digits: string, base: nat): Option<ArithError> {
    if digits == "" then None
    else
      var before := DigitError(digits[..|digits| - 1], base);
      if before.Some? then before
      else
        var digit := DigitValue(digits[|digits| - 1], base);
        if digit.None? then Some(InvalidConstant) else if digit.value >= base then Some(ValueTooGreat) else None
  }

  /** The positional value of well-formed digits, without any width. */
  function Positional(digits: string, base: nat): nat
    requires DigitError(digits, base).None?
  {
    if digits == "" then 0
    else base * Positional(digits[..|digits| - 1], base) + DigitValue(digits[|digits| - 1], base).value
  }

  /** What scanning `digits` in `base` yields: the first error, or the wrapped positional value. */
  function DigitsNumber(digits: string, base: nat): Parsed {
    if DigitError(digits, base).Some? then Malformed(DigitError(digits, base).value)
    else Number(Wrap(Positional(digits, base)))
  }

  lemma {:induction false} DigitErrorPrefix(digits: string, base: nat, n: nat)
    requires n <= |digits| && DigitError(digits[..n], base).Some?
    ensures DigitError(digits, base) == DigitError(digits[..n], base)
    decreases |digits| - n
  {
    if n < |digits| {
      assert digits[..n + 1][..n] == digits[..n];
      DigitErrorPrefix(digits, base, n + 1);
    } else {
      assert digits[..n] == digits;
    }
  }

  /** Index of the first occurrence of `c`, or the length. */
  function IndexOf(s: string, c: char): (i: nat)
    ensures i <= |s| && c !in s[..i] && (i < |s| ==> s[i] == c)
  {
    if s == "" then 0 else if s[0] == c then 0 else
      var i := IndexOf(s[1..], c);
      assert s[..i + 1] == [s[0]] + s[1..][..i];
      i + 1
  }

  /** An unsigned decimal in a 32-bit word, with an optional plus sign. */
  function ParseU32(s: string): Option<nat> {
    var body := if s != "" && s[0] == '+' then s[1..] else s;
    if body == "" || !AllDigits(body) || DecimalValue(body) > U32_MAX then None else Some(DecimalValue(body))
  }

  datatype Radix = Radix(base: nat, digits: string) | NoRadix(error: ArithError)

  /** The base a constant is written in and the digits that follow its prefix. */
  function RadixOf(text: string): Radix {
    var hash := IndexOf(text, '#');
    if hash < |text| then
      var base := ParseU32(text[..hash]);
      if base.None? || base.value < 2 || base.value > 64 then NoRadix(InvalidBase)
      else if hash + 1 == |text| then NoRadix(InvalidConstant)
      else Radix(base.value, text[hash + 1..])
    else if "0x" <= text || "0X" <= text then Radix(16, text[2..])
    else if |text| > 1 && text[0] == '0' then Radix(8, text[1..])
    else Radix(10, text)
  }

  /** The value of an integer constant: decimal, `0` octal, `0x` hexadecimal or `BASE#DIGITS`. */
  function Constant(text: string): Parsed {
    match RadixOf(text)
    case NoRadix(error) => Malformed(error)
    case Radix(base, digits) => DigitsNumber(digits, base)
  }

  /** The accumulating loop, which wraps after every digit, yields the positional value wrapped
      once, and stops at the first bad digit. */
  method ParseConstant(text: string) returns (r: Parsed)
    ensures r == Constant(text)
  {
    var radix := RadixOf(text);
    if radix.NoRadix? {
      return Malformed(radix.error);
    }
    hide Wrap, DigitError, Positional, DigitValue;
    var base, digits := radix.base, radix.digits;
    NoDigits(base);
    var value: i64 := 0;
    var i := 0;
    while i < |digits|
      invariant 0 <= i <= |digits|
      invariant DigitError(digits[..i], base).None? && value == Wrap(Positional(digits[..i], base))
    {
      var digit := DigitValue(digits[i], base);
      OneMoreDigit(digits[..i], digits[i], base);
      assert digits[..i + 1] == digits[..i] + [digits[i]];
      if digit.None? || digit.value >= base {
        DigitErrorPrefix(digits, base, i + 1);
        return Malformed(if digit.None? then InvalidConstant else ValueTooGreat);
      }
      WrapAccumulate(Positional(digits[..i], base), base, digit.value);
      value := Wrap(Wrap(value * base) + digit.value);
      i := i + 1;
    }
    assert digits[..i] == digits;
    r := Number(value);
  }

  lemma NoDigits(base: nat)
    ensures DigitError("", base).None? && Positional("", base) == 0 && Wrap(0) == 0
  {
  }

  /** One more digit behind well-formed ones. */
  lemma OneMoreDigit(digits: string, c: char, base: nat)
    requires DigitError(digits, base).None?
    ensures var digit := DigitValue(c, base);
            DigitError(digits + [c], base) ==
            if digit.None? then Some(InvalidConstant) else if digit.value >= base then Some(ValueTooGreat) else None
    ensures DigitError(digits + [c], base).None? ==>
              Positional(digits + [c], base) == base * Positional(digits, base) + DigitValue(c, base).value
  {
    hide DigitValue;
    assert (digits + [c])[..|digits + [c]| - 1] == digits;
  }

  lemma WrapAccumulate(p: int, base: nat, digit: nat)
    ensures Wrap(Wrap(Wrap(p) * base) + digit) == Wrap(base * p + digit)
  {
    WrapFactor(p, base);
    Commute(p, base);
    WrapSummand(base * p, digit);
  }

  // ----- Printing numbers, and reading them back -----

  function DigitChar(v: nat): char
    requires v < 64
  {
    if v < 10 then ('0' as int + v) as char
    else if v < 36 then ('a' as int + v - 10) as char
    else if v < 62 then ('A' as int + v - 36) as char
    else if v == 62 then '@' else '_'
  }

  /** The digits of `n` in `base`, most significant first; zero is one digit. */
  function Digits(n: nat, base: nat): (s: string)
    requires 2 <= base <= 64
    ensures s != ""
    decreases n
  {
    if n < base then [DigitChar(n)] else
      assert n / base < n by { DivShrinks(n, base); }
      Digits(n / base, base) + [DigitChar(n % base)]
  }

  lemma TwiceAtMost(base: nat, q: nat)
    requires base >= 2
    ensures base * q >= 2 * q
  {
    assert base * q == 2 * q + (base - 2) * q;
  }

  lemma DivShrinks(n: nat, base: nat)
    requires base >= 2 && n > 0
    ensures n / base < n
  {
    var q := n / base;
    assert n == base * q + n % base;
    TwiceAtMost(base, q);
  }

  lemma DigitRoundTrip(v: nat, base: nat)
    requires v < base <= 64
    ensures DigitValue(DigitChar(v), base) == Some(v)
  {
  }

  lemma {:induction false} DigitsRoundTrip(n: nat, base: nat)
    requires 2 <= base <= 64
    ensures DigitError(Digits(n, base), base).None? && Positional(Digits(n, base), base) == n
    decreases n
  {
    hide DigitError, Positional, DigitValue, DigitChar;
    NoDigits(base);
    if n < base {
      DigitRoundTrip(n, base);
      OneMoreDigit("", DigitChar(n), base);
      assert "" + [DigitChar(n)] == [DigitChar(n)];
    } else {
      DivShrinks(n, base);
      DigitsRoundTrip(n / base, base);
      DigitRoundTrip(n % base, base);
      OneMoreDigit(Digits(n / base, base), DigitChar(n % base), base);
    }
  }

  function Decimal(n: nat): string {
    Digits(n, 10)
  }

  lemma {:induction false} DecimalRoundTrip(n: nat)
    ensures AllDigits(Decimal(n)) && DecimalValue(Decimal(n)) == n
    ensures |Decimal(n)| > 1 ==> Decimal(n)[0] != '0'
    decreases n
  {
    var s := Decimal(n);
    if n >= 10 {
      DecimalRoundTrip(n / 10);
      assert s[..|s| - 1] == Decimal(n / 10);
      if |Decimal(n / 10)| == 1 {
        assert n / 10 < 10;
      }
    } else {
      assert s[..0] == "";
      assert DecimalValue(s[..0]) == 0;
    }
  }

  lemma NoHashInDigits(s: string)
    requires AllDigits(s)
    ensures IndexOf(s, '#') == |s|
  {
  }

  lemma IndexOfFirst(s: string, t: string, c: char)
    requires c !in s
    ensures IndexOf(s + [c] + t, c) == |s|
  {
    var whole := s + [c] + t;
    var i := IndexOf(whole, c);
    assert whole[|s|] == c;
    assert whole[..i] == whole[..if i <= |s| then i else |s|] + whole[if i <= |s| then i else |s|..i];
    assert forall j :: 0 <= j < |s| ==> whole[j] == s[j] && s[j] in s;
    assert i <= |s|;
  }

  lemma RadixOfPrinted(prefix: string, digits: string, base: nat)
    requires AllDigits(prefix) && prefix != "" && DecimalValue(prefix) == base && 2 <= base <= 64 && digits != ""
    requires IndexOf(prefix + ['#'] + digits, '#') == |prefix|
    ensures RadixOf(prefix + ['#'] + digits) == Radix(base, digits)
  {
    hide IndexOf, DecimalValue;
    var text := prefix + ['#'] + digits;
    assert text[..|prefix|] == prefix && text[|prefix| + 1..] == digits;
    assert IsDigit(prefix[0]);
  }

  /** Printing a non-negative 64-bit number as `BASE#DIGITS` and reading it back is the identity. */
  lemma BaseRoundTrip(n: nat, base: nat)
    requires n <= I64_MAX && 2 <= base <= 64
    ensures Constant(Decimal(base) + ['#'] + Digits(n, base)) == Number(n)
  {
    hide Positional, DigitError, DecimalValue, IndexOf, RadixOf, Digits;
    var prefix, digits := Decimal(base), Digits(n, base);
    var text := prefix + ['#'] + digits;
    DecimalRoundTrip(base);
    DigitsRoundTrip(n, base);
    assert '#' !in prefix;
    IndexOfFirst(prefix, digits, '#');
    WrapSmall(n);
    RadixOfPrinted(prefix, digits, base);
  }

  /** A plain decimal constant denotes itself. */
  lemma DecimalConstant(n: nat)
    requires n <= I64_MAX
    ensures Constant(Decimal(n)) == Number(n)
  {
    var s := Decimal(n);
    DecimalRoundTrip(n);
    DigitsRoundTrip(n, 10);
    NoHashInDigits(s);
    if |s| > 1 {
      assert IsDigit(s[1]);
    }
    assert RadixOf(s) == Radix(10, s);
  }

  /** A leading zero makes a constant octal, `0x` and `0X` make it hexadecimal. */
  lemma PrefixRoundTrip(n: nat)
    requires n <= I64_MAX
    ensures Constant("0" + Digits(n, 8)) == Number(n)
    ensures Constant("0x" + Digits(n, 16)) == Number(n)
    ensures Constant("0X" + Digits(n, 16)) == Number(n)
  {
    hide Positional, DigitError, Digits;
    WrapSmall(n);
    DigitsRoundTrip(n, 8);
    DigitsRoundTrip(n, 16);
    LowDigits(n, 8);
    LowDigits(n, 16);
    RadixOfPrefixed("0", Digits(n, 8), 8);
    RadixOfPrefixed("0x", Digits(n, 16), 16);
    RadixOfPrefixed("0X", Digits(n, 16), 16);
  }

  predicate IsLow(c: char) {
    '0' <= c <= '9' || 'a' <= c <= 'f'
  }

  lemma {:induction false} LowDigits(n: nat, base: nat)
    requires 2 <= base <= 16
    ensures forall i :: 0 <= i < |Digits(n, base)| ==> IsLow(Digits(n, base)[i])
    decreases n
  {
    if n >= base {
      DivShrinks(n, base);
      LowDigits(n / base, base);
    }
  }

  lemma RadixOfPrefixed(prefix: string, digits: string, base: nat)
    requires (prefix == "0" && base == 8) || ((prefix == "0x" || prefix == "0X") && base == 16)
    requires digits != "" && forall i :: 0 <= i < |digits| ==> IsLow(digits[i])
    ensures RadixOf(prefix + digits) == Radix(base, digits)
  {
    var text := prefix + digits;
    var hash := IndexOf(text, '#');
    assert text[|prefix|..] == digits && text[0] == '0' && (base == 8 ==> text[1] == digits[0]);
    assert forall i :: |prefix| <= i < |text| ==> text[i] == digits[i - |prefix|];
    assert hash == |text|;
  }

  /** The digits with upper-case letters for the lower-case ones. */
  function UpperCase(s: string): string {
    seq(|s|, i requires 0 <= i < |s| => if 'a' <= s[i] <= 'z' then (s[i] as int - 32) as char else s[i])
  }

  /** In bases up to 36 the case of a digit does not matter. */
  lemma {:induction false} CaseIgnored(digits: string, base: nat)
    requires base <= 36
    ensures DigitsNumber(UpperCase(digits), base) == DigitsNumber(digits, base)
    ensures DigitError(UpperCase(digits), base) == DigitError(digits, base)
    ensures DigitError(digits, base).None? ==> Positional(UpperCase(digits), base) == Positional(digits, base)
    decreases |digits|
  {
    hide Wrap;
    var upper := UpperCase(digits);
    if digits != "" {
      var n := |digits| - 1;
      assert upper[..n] == UpperCase(digits[..n]);
      CaseIgnored(digits[..n], base);
      assert DigitValue(upper[n], base) == DigitValue(digits[n], base);
    } else {
      assert upper == "";
    }
  }
}
