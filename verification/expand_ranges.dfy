// Brace ranges as they are written: which numbers and characters they list, and how.

module BraceRanges {
  import opened Basics
  import opened ArithNumbers
  import opened ArithGrammar
  import opened BraceExpansion

  // ----- The pieces between dots -----

  lemma {:induction false} DotPiece(s: string, start: nat, i: nat, x: string, rest: string)
    requires start <= i <= |s| && s[start..] == x + (".." + rest) && '.' !in x && i <= start + |x|
    ensures start + |x| + 2 <= |s|
    ensures DotSplit(s, start, i) == [x] + DotSplit(s, start + |x| + 2, start + |x| + 2)
    decreases |s| - i
  {
    var end := start + |x|;
    assert |s| == end + 2 + |rest|;
    assert s[start..][|x|] == '.' && s[start..][|x| + 1] == '.';
    assert s[start..end] == s[start..][..|x|] == x;
    if i < end {
      assert s[i] == s[start..][i - start] == x[i - start] && x[i - start] in x;
      DotPiece(s, start, i + 1, x, rest);
    }
  }

  lemma {:induction false} DotLast(s: string, start: nat, i: nat)
    requires start <= i <= |s| && '.' !in s[start..]
    ensures DotSplit(s, start, i) == [s[start..]]
    decreases |s| - i
  {
    if i + 1 < |s| {
      assert s[i] == s[start..][i - start] && s[i] in s[start..];
      DotLast(s, start, i + 1);
    }
  }

  /** A range of two ends. */
  function RangeText(x: string, y: string): string {
    x + (".." + y)
  }

  lemma TwoPieces(x: string, y: string)
    requires '.' !in x && '.' !in y
    ensures DotSplit(RangeText(x, y), 0, 0) == [x, y]
  {
    var s := RangeText(x, y);
    assert s[0..] == s;
    DotPiece(s, 0, 0, x, y);
    assert s[|x| + 2..] == y;
    DotLast(s, |x| + 2, |x| + 2);
  }

  lemma ThreePieces(x: string, y: string, z: string)
    requires '.' !in x && '.' !in y && '.' !in z
    ensures DotSplit(RangeText(x, RangeText(y, z)), 0, 0) == [x, y, z]
  {
    var s := RangeText(x, RangeText(y, z));
    assert s[0..] == s;
    DotPiece(s, 0, 0, x, RangeText(y, z));
    var n := |x| + 2;
    assert s[n..] == RangeText(y, z);
    DotPiece(s, n, n, y, z);
    assert s[n + |y| + 2..] == RangeText(y, z)[|y| + 2..] == z;
    DotLast(s, n + |y| + 2, n + |y| + 2);
  }

  // ----- Numbers -----

  lemma SignedReads(value: i64, body: string)
    requires body != "" && AllDigits(body) && DecimalValue(body) == Abs(value)
    ensures ParseI64((if value < 0 then "-" else "") + body) == Some(value)
  {
    hide DecimalValue;
    if value < 0 {
      var text := "-" + body;
      assert text[0] == '-' && text[1..] == body;
    } else {
      assert "" + body == body && IsDigit(body[0]);
    }
  }

  lemma PrintedParts(value: i64)
    ensures var digits := Decimal(Abs(value));
            && digits != "" && AllDigits(digits) && DecimalValue(digits) == Abs(value)
            && Printed(value) == (if value < 0 then "-" else "") + digits && ParseI64(Printed(value)) == Some(value)
            && '.' !in Printed(value) && WithoutDashes(Printed(value)) == digits
  {
    hide Decimal, ParseI64, WithoutDashes, DecimalValue;
    var digits := Decimal(Abs(value));
    DecimalRoundTrip(Abs(value));
    assert digits != "" by { SomeDigits(Abs(value)); }
    assert "" + digits == digits;
    assert Printed(value) == (if value < 0 then "-" else "") + digits;
    SignedReads(value, digits);
    DashesGone(value < 0, digits);
  }

  lemma DashesGone(negative: bool, digits: string)
    requires digits != "" && AllDigits(digits)
    ensures WithoutDashes((if negative then "-" else "") + digits) == digits
  {
    assert IsDigit(digits[0]) && WithoutDashes(digits) == digits;
    if negative {
      assert ("-" + digits)[1..] == digits;
    } else {
      assert "" + digits == digits;
    }
  }

  lemma SomeDigits(n: nat)
    ensures Decimal(n) != ""
  {
  }

  /** The digits of a listed number. */
  function Filled(value: i64, width: nat): string {
    var digits := Decimal(Abs(value));
    seq(if |digits| < width then width - |digits| else 0, _ => '0') + digits
  }

  lemma LabelParts(value: i64, width: nat)
    ensures Label(value, width) == (if value < 0 then "-" else "") + Filled(value, width)
    ensures |Filled(value, width)| == if width > |Decimal(Abs(value))| then width else |Decimal(Abs(value))|
  {
    hide Decimal;
    var digits := Decimal(Abs(value));
    var zeros: string := seq(if |digits| < width then width - |digits| else 0, _ => '0');
    assert "" + zeros + digits == "" + (zeros + digits) && "-" + zeros + digits == "-" + (zeros + digits);
  }

  lemma FilledReads(value: i64, width: nat)
    ensures var body := Filled(value, width); body != "" && AllDigits(body) && DecimalValue(body) == Abs(value)
  {
    hide Decimal;
    PrintedParts(value);
    var digits := Decimal(Abs(value));
    ZerosCountNothing(if |digits| < width then width - |digits| else 0, digits);
  }

  /** A listed number reads back as itself, and is as wide as asked or as it must be. */
  lemma LabelExactly(value: i64, width: nat)
    ensures var digits := |Label(value, width)| - if value < 0 then 1 else 0;
            && ParseI64(Label(value, width)) == Some(value)
            && digits == if width > |Decimal(Abs(value))| then width else |Decimal(Abs(value))|
  {
    hide Decimal, Label, Filled, ParseI64;
    LabelParts(value, width);
    FilledReads(value, width);
    SignedReads(value, Filled(value, width));
  }

  lemma {:induction false} ZerosCountNothing(n: nat, digits: string)
    requires AllDigits(digits)
    ensures var s := seq(n, _ => '0') + digits; AllDigits(s) && DecimalValue(s) == DecimalValue(digits)
    decreases |digits|
  {
    var zeros: string := seq(n, _ => '0');
    var s := zeros + digits;
    if digits == "" {
      assert s == zeros;
      OnlyZeros(n);
    } else {
      var front := digits[..|digits| - 1];
      ZerosCountNothing(n, front);
      assert s[..|s| - 1] == zeros + front && s[|s| - 1] == digits[|digits| - 1];
    }
  }

  lemma {:induction false} OnlyZeros(n: nat)
    ensures AllDigits(seq(n, _ => '0')) && DecimalValue(seq(n, _ => '0')) == 0
  {
    if n > 0 {
      OnlyZeros(n - 1);
      var s: string := seq(n, _ => '0');
      assert s[..|s| - 1] == seq(n - 1, _ => '0');
    }
  }

  /** The width of a number range: the wider end's digits. */
  function WidthOf(a: i64, b: i64): nat {
    Wider(Decimal(Abs(a)), Decimal(Abs(b)))
  }

  /** A number range without a step. */
  lemma RangeReads(a: i64, b: i64)
    ensures Range(RangeText(Printed(a), Printed(b))) == NumberRange(a, b, if a <= b then 1 else -1, WidthOf(a, b))
  {
    hide Printed, Decimal, NumberRange, ParseI64, Letters;
    PrintedParts(a);
    PrintedParts(b);
    TwoPieces(Printed(a), Printed(b));
  }

  /** A number range with a step. */
  lemma StepReads(a: i64, b: i64, step: i64)
    requires step != 0
    ensures Range(RangeText(Printed(a), RangeText(Printed(b), Printed(step)))) == NumberRange(a, b, step, WidthOf(a, b))
  {
    hide Printed, Decimal, NumberRange, ParseI64, Letters;
    PrintedParts(a);
    PrintedParts(b);
    PrintedParts(step);
    ThreePieces(Printed(a), Printed(b), Printed(step));
  }

  lemma WrapSign(x: int)
    requires -TWO64 < x < TWO64
    ensures Sign(Wrap(x)) == if I64_MIN <= x <= I64_MAX then Sign(x) else -Sign(x)
  {
    if x > I64_MAX {
      WrapShift(x - TWO64, 1);
    } else if x < I64_MIN {
      WrapShift(x + TWO64, -1);
    }
    assert I64_MIN <= x <= I64_MAX ==> Wrap(x) == x;
  }

  /** The end is the last 64-bit number in the direction of the range: counting cannot pass it. */
  predicate AtTheEdge(a: i64, b: i64) {
    if a <= b then b == I64_MAX else b == I64_MIN
  }

  /** The number at a place of a range: counted from the start, held inside 64 bits. */
  function Counted(a: i64, b: i64, k: nat): i64 {
    if a <= b then Clamp(a + k) else Clamp(a - k)
  }

  lemma CountedReaches(a: i64, b: i64, k: nat)
    ensures var step: i64 := if a <= b then 1 else -1;
            && Term(a, step, k) == Counted(a, b, k)
            && (Reaches(Counted(a, b, k), b, step) <==> k <= Abs(b - a) || AtTheEdge(a, b))
  {
    assert k * 1 == k && k * -1 == -(k as int);
  }

  /** A range of two written numbers counts from the first to the second, at most 1024 of them and each as wide as
      the wider end; nothing when the distance exceeds 64 bits. At the edge of 64 bits it does not stop: it repeats
      the end up to the limit. */
  lemma RangeExactly(a: i64, b: i64, k: nat)
    ensures var out := Range(RangeText(Printed(a), Printed(b)));
            && (k < |out| <==>
                k < 1024 && I64_MIN <= b - a <= I64_MAX && (k <= Abs(b - a) || AtTheEdge(a, b)))
            && (k < |out| ==> out[k] == Label(Counted(a, b, k), WidthOf(a, b)))
  {
    hide Range, Label, Numbers, WidthOf, Term, Reaches, Counted, AtTheEdge;
    var step: i64 := if a <= b then 1 else -1;
    RangeReads(a, b);
    WrapSign(b - a);
    NumbersAt(a, b, step, WidthOf(a, b), MAX_WORDS, k);
    CountedReaches(a, b, k);
  }

  /** A range of at most 1024 numbers lists each once if and only if its end is not at the edge, or is the 1024th. */
  lemma RangeCounts(a: i64, b: i64)
    requires Abs(b - a) < 1024
    ensures |Range(RangeText(Printed(a), Printed(b)))| == Abs(b - a) + 1 <==> !AtTheEdge(a, b) || Abs(b - a) == 1023
  {
    hide Range, AtTheEdge, Printed;
    var n := Abs(b - a);
    RangeExactly(a, b, n);
    RangeExactly(a, b, n + 1);
    assert I64_MIN <= b - a <= I64_MAX;
  }

  /** The range from the largest 64-bit number to itself lists it 1024 times. */
  lemma EdgeRepeats()
    ensures var out := Range(RangeText(Printed(I64_MAX), Printed(I64_MAX)));
            |out| == 1024 && forall k :: 0 <= k < 1024 ==> out[k] == Label(I64_MAX, WidthOf(I64_MAX, I64_MAX))
  {
    hide Range, Printed, Label, WidthOf;
    var out := Range(RangeText(Printed(I64_MAX), Printed(I64_MAX)));
    RangeExactly(I64_MAX, I64_MAX, 1023);
    RangeExactly(I64_MAX, I64_MAX, 1024);
    forall k | 0 <= k < 1024
      ensures out[k] == Label(I64_MAX, WidthOf(I64_MAX, I64_MAX))
    {
      RangeExactly(I64_MAX, I64_MAX, k);
    }
  }

  /** With a step: the numbers from the first by the step as far as the second, if the step leads there. */
  lemma StepExactly(a: i64, b: i64, step: i64, k: nat)
    requires step != 0
    ensures var out := Range(RangeText(Printed(a), RangeText(Printed(b), Printed(step))));
            var leads := a == b || (Sign(b - a) == Sign(step)) == (I64_MIN <= b - a <= I64_MAX);
            && (k < |out| <==> k < 1024 && leads && Reaches(Term(a, step, k), b, step))
            && (k < |out| ==> out[k] == Label(Term(a, step, k), WidthOf(a, b)))
  {
    hide Range, Label, Numbers, WidthOf, Term, Reaches;
    StepReads(a, b, step);
    WrapSign(b - a);
    NumbersAt(a, b, step, WidthOf(a, b), MAX_WORDS, k);
  }

  // ----- Characters -----

  lemma {:induction false} LettersAt(value: i64, end: i64, step: i64, left: nat, k: nat)
    requires step == 1 || step == -1
    requires 0 <= value < 0xD800 && 0 <= end < 0xD800
    ensures k < |Letters(value, end, step, left)| <==> k < left && Reaches(value + k * step, end, step)
    ensures k < |Letters(value, end, step, left)| ==>
              0 <= value + k * step < 0xD800 && Letters(value, end, step, left)[k] == [(value + k * step) as char]
    decreases k
  {
    if left > 0 && Reaches(value, end, step) {
      if k > 0 {
        if value == end {
          LettersOver(value + step, end, step, left - 1);
        } else {
          LettersAt(value + step, end, step, left - 1, k - 1);
        }
      }
    }
  }

  lemma LettersOver(value: i64, end: i64, step: i64, left: nat)
    requires (step == 1 || step == -1) && 0 <= end < 0xD800 && value == end + step && (step > 0 ==> value >= 0)
    ensures Letters(value, end, step, left) == []
  {
  }

  /** Two written characters that are not both digits, below the surrogates: the characters from the first to the
      second, at most 1024 of them. */
  lemma LettersExactly(x: char, y: char, k: nat)
    requires !(IsDigit(x) && IsDigit(y)) && x != '.' && y != '.' && x as int < 0xD800 && y as int < 0xD800
    ensures var out := Range(RangeText([x], [y]));
            var step := if x <= y then 1 else -1;
            && (k < |out| <==> k < 1024 && k <= Abs(y as int - x as int))
            && (k < |out| ==> 0 <= x as int + k * step < 0xD800 && out[k] == [(x as int + k * step) as char])
  {
    hide Letters, NumberRange;
    TwoPieces([x], [y]);
    var from, to := x as int, y as int;
    var step: i64 := if from <= to then 1 else -1;
    NotNumber(x);
    NotNumber(y);
    LettersAt(from, to, step, MAX_WORDS, k);
    assert k * step == if from <= to then k else -(k as int);
  }

  lemma NotNumber(c: char)
    ensures ParseI64([c]).Some? <==> IsDigit(c)
  {
    assert [c][1..] == "";
    if IsDigit(c) {
      assert [c][..0] == "" && DecimalValue("") == 0;
    }
  }
}
