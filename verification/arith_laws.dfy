// What the operators compute, stated against the integers and against each other, for all 64-bit
// operands.

module ArithLaws {
  import opened Basics
  import opened ArithNumbers
  import opened ArithGrammar

  /** Two integers that differ by a multiple of 2^64. */
  ghost predicate Congruent(x: int, y: int) {
    exists turns: int :: Differ(x, y, turns)
  }

  predicate Differ(x: int, y: int, turns: int) {
    x == y + TWO64 * turns
  }

  /** A 64-bit result is determined by the integer it is congruent to. */
  lemma CongruentOnce(x: i64, y: i64)
    requires Congruent(x, y)
    ensures x == y
  {
    var turns: int :| Differ(x, y, turns);
  }

  lemma Wrapped(x: int)
    ensures Congruent(Wrap(x), x)
  {
    WrapTurns(x);
    assert Differ(Wrap(x), x, -Turns(x));
  }

  // ----- Sums and products -----

  /** Addition, subtraction and multiplication are those of the integers modulo 2^64. */
  lemma RingExactly(x: i64, y: i64)
    ensures Apply("+", x, y).Number? && Congruent(Apply("+", x, y).value, x + y)
    ensures Apply("-", x, y).Number? && Congruent(Apply("-", x, y).value, x - y)
    ensures Apply("*", x, y).Number? && Congruent(Apply("*", x, y).value, x * y)
  {
    hide Wrap;
    Wrapped(x + y);
    Wrapped(x - y);
    Wrapped(x * y);
  }

  /** Adding what was subtracted gives back the first operand, overflow included. */
  lemma SubtractionUndone(x: i64, y: i64)
    ensures Apply("-", x, y).Number? && Apply("+", Apply("-", x, y).value, y) == Number(x)
  {
    WrapSummand(x - y, y);
    WrapSmall(x);
  }

  // ----- Quotients -----

  /** Division fails exactly for a zero divisor. Otherwise quotient and remainder add up to the dividend,
      exactly but for the one quotient that overflows, and the remainder is smaller than the divisor and
      has the sign of the dividend. */
  lemma DivisionExactly(x: i64, y: i64)
    ensures Apply("/", x, y) == Malformed(DivisionByZero) <==> y == 0
    ensures Apply("%", x, y) == Malformed(DivisionByZero) <==> y == 0
    ensures y != 0 ==> Apply("/", x, y).Number? && Apply("%", x, y).Number?
    ensures y != 0 ==>
              var q, r := Apply("/", x, y).value, Apply("%", x, y).value;
              && Congruent(q * y + r, x)
              && (q * y + r == x <==> !(x == I64_MIN && y == -1))
              && -Size(y) < r < Size(y) && (r > 0 ==> x > 0) && (r < 0 ==> x < 0)
  {
    if y != 0 {
      var q := Quotient(x, y);
      Truncates(x, y);
      var r := x - y * q;
      WrapSmall(r);
      if x == I64_MIN && y == -1 {
        assert q == TWO63 && r == 0 && Wrap(q) == I64_MIN;
        assert Differ(Wrap(q) * y + r, x, 1);
      } else {
        QuotientFits(x, y);
        WrapSmall(q);
        assert Differ(q * y + r, x, 0);
      }
    }
  }

  function Size(x: int): int {
    if x < 0 then -x else x
  }

  lemma Truncates(x: int, y: int)
    requires y != 0
    ensures var r := x - y * Quotient(x, y); -Size(y) < r < Size(y) && (r > 0 ==> x > 0) && (r < 0 ==> x < 0)
  {
    var a, b := Size(x), Size(y);
    var q := a / b;
    Remainder(a, b);
    Signs(b, q);
    assert Quotient(x, y) == if (x < 0) == (y < 0) then q else -q;
  }

  lemma Remainder(a: int, b: int)
    requires a >= 0 && b > 0
    ensures 0 <= a - b * (a / b) < b && (a - b * (a / b) > 0 ==> a > 0)
  {
  }

  lemma Signs(b: int, q: int)
    ensures (-b) * q == -(b * q) && b * (-q) == -(b * q) && (-b) * (-q) == b * q
  {
  }

  lemma QuotientFits(x: i64, y: i64)
    requires y != 0 && !(x == I64_MIN && y == -1)
    ensures I64_MIN <= Quotient(x, y) <= I64_MAX
  {
    var a, b := Size(x), Size(y);
    Divides(a, b);
  }

  lemma Divides(a: nat, b: nat)
    requires b > 0
    ensures a / b <= a && (b > 1 && a > 0 ==> a / b < a)
  {
    assert a == b * (a / b) + a % b;
    if b > 1 && a / b > 0 {
      Grows(b, a / b);
    }
  }

  lemma Grows(b: nat, q: nat)
    requires b > 1 && q > 0
    ensures b * q > q
  {
    assert b * q == q + (b - 1) * q;
  }

  // ----- Shifts -----

  /** `k` doublings in 64 bits. */
  function Doubled(x: i64, k: nat): i64 {
    if k == 0 then x else Wrap(2 * Doubled(x, k - 1))
  }

  /** A shift to the left is as many doublings as the count says modulo 64. */
  lemma LeftShiftDoubles(x: i64, y: i64)
    ensures Apply("<<", x, y) == Number(Doubled(x, y % 64))
  {
    hide Wrap;
    DoubledIsProduct(x, y % 64);
  }

  lemma {:induction false} DoubledIsProduct(x: i64, k: nat)
    ensures Doubled(x, k) == Wrap(x * Pow(2, k))
  {
    hide Wrap;
    if k == 0 {
      WrapSmall(x);
      assert x * 1 == x;
    } else {
      DoubledIsProduct(x, k - 1);
      var p := x * Pow(2, k - 1);
      WrapFactor(p, 2);
      assert Wrap(p) * 2 == 2 * Wrap(p);
      assert p * 2 == x * Pow(2, k) by {
        assert x * (2 * Pow(2, k - 1)) == p * 2;
      }
    }
  }

  /** A shift to the right divides by a power of two and rounds down, with the count modulo 64. */
  lemma RightShiftFloors(x: i64, y: i64)
    ensures Apply(">>", x, y).Number?
    ensures var v, power := Apply(">>", x, y).value, Pow(2, y % 64); v * power <= x < (v + 1) * power
  {
    hide Wrap;
    ShiftFloors(x, y % 64);
    ShiftFits(x, y % 64);
    WrapSmall(FloorShift(x, y % 64));
  }

  lemma {:induction false} ShiftFloors(x: int, k: nat)
    ensures FloorShift(x, k) * Pow(2, k) <= x < (FloorShift(x, k) + 1) * Pow(2, k)
    decreases k
  {
    if k > 0 {
      ShiftFloors(x / 2, k - 1);
      var v, p := FloorShift(x, k), Pow(2, k - 1);
      assert v * Pow(2, k) == 2 * (v * p) && (v + 1) * Pow(2, k) == 2 * ((v + 1) * p);
    }
  }

  lemma {:induction false} ShiftFits(x: i64, k: nat)
    ensures I64_MIN <= FloorShift(x, k) <= I64_MAX
    decreases k
  {
    if k > 0 {
      ShiftFits(x / 2, k - 1);
    }
  }

  // ----- Bits -----

  /** `|`, `^` and `&` act on each of the 64 bits by itself. */
  lemma BitwiseExactly(x: i64, y: i64)
    ensures Apply("|", x, y).Number? && Apply("^", x, y).Number? && Apply("&", x, y).Number?
    ensures forall i: nat :: i < 64 ==> (Bit(Apply("|", x, y).value, i) <==> Bit(x, i) || Bit(y, i))
    ensures forall i: nat :: i < 64 ==> (Bit(Apply("^", x, y).value, i) <==> Bit(x, i) != Bit(y, i))
    ensures forall i: nat :: i < 64 ==> (Bit(Apply("&", x, y).value, i) <==> Bit(x, i) && Bit(y, i))
  {
    hide Bit, Wrap;
    BitsBack(seq(64, i requires i >= 0 => Bit(x, i) || Bit(y, i)));
    BitsBack(seq(64, i requires i >= 0 => Bit(x, i) != Bit(y, i)));
    BitsBack(seq(64, i requires i >= 0 => Bit(x, i) && Bit(y, i)));
  }

  /** The bits of a 64-bit integer determine it. */
  lemma BitsDetermine(x: i64, y: i64)
    requires forall i: nat :: i < 64 ==> (Bit(x, i) <==> Bit(y, i))
    ensures x == y
  {
    TwoTo63();
    SameFromBits(x, y, 64);
  }

  lemma BitsBack(bits: seq<bool>)
    requires |bits| == 64
    ensures var v := FromBits(bits); Wrap(v) == v && forall i: nat :: i < 64 ==> (Bit(v, i) <==> bits[i])
  {
    hide Wrap;
    TwoTo63();
    FromBitsFits(bits);
    WrapSmall(FromBits(bits));
    forall i: nat | i < 64
      ensures Bit(FromBits(bits), i) <==> bits[i]
    {
      BitOfBits(bits, i);
    }
  }

  lemma {:induction false} BitOfBits(bits: seq<bool>, i: nat)
    requires i < |bits|
    ensures Bit(FromBits(bits), i) <==> bits[i]
    decreases i
  {
    var v := FromBits(bits);
    if |bits| > 1 {
      assert v / 2 == FromBits(bits[1..]);
      if i > 0 {
        BitOfBits(bits[1..], i - 1);
      }
    }
  }

  lemma {:induction false} FromBitsFits(bits: seq<bool>)
    requires bits != []
    ensures -Pow(2, |bits| - 1) <= FromBits(bits) < Pow(2, |bits| - 1)
    decreases |bits|
  {
    if |bits| > 1 {
      FromBitsFits(bits[1..]);
      assert Pow(2, |bits| - 1) == 2 * Pow(2, |bits| - 2);
    }
  }

  lemma {:induction false} SameFromBits(x: int, y: int, n: nat)
    requires n > 0 && -Pow(2, n - 1) <= x < Pow(2, n - 1) && -Pow(2, n - 1) <= y < Pow(2, n - 1)
    requires forall i: nat :: i < n ==> (Bit(x, i) <==> Bit(y, i))
    ensures x == y
    decreases n
  {
    assert Bit(x, 0) <==> Bit(y, 0);
    if n > 1 {
      assert Pow(2, n - 1) == 2 * Pow(2, n - 2);
      forall i: nat | i < n - 1
        ensures Bit(x / 2, i) <==> Bit(y / 2, i)
      {
        assert Bit(x, i + 1) <==> Bit(y, i + 1);
      }
      SameFromBits(x / 2, y / 2, n - 1);
    }
  }

  lemma TwoTo63()
    ensures Pow(2, 63) == TWO63
  {
    PowAdds(16, 16);
    PowAdds(32, 16);
    PowAdds(48, 15);
    PowAdds(8, 8);
    PowAdds(8, 7);
    assert Pow(2, 7) == 128 && Pow(2, 8) == 256;
    assert Pow(2, 16) == 0x1_0000 && Pow(2, 15) == 0x8000;
    assert Pow(2, 32) == 0x1_0000_0000 && Pow(2, 48) == 0x1_0000_0000_0000;
  }

  lemma {:induction false} PowAdds(a: nat, b: nat)
    ensures Pow(2, a + b) == Pow(2, a) * Pow(2, b)
    decreases a
  {
    if a > 0 {
      PowAdds(a - 1, b);
      var p, q := Pow(2, a - 1), Pow(2, b);
      assert 2 * (p * q) == (2 * p) * q;
    } else {
      assert 1 * Pow(2, b) == Pow(2, b);
    }
  }

  // ----- Comparisons and powers -----

  /** A comparison is one when the integers compare so and zero otherwise. */
  lemma ComparisonsExactly(x: i64, y: i64)
    ensures Apply("==", x, y) == Number(1) <==> x == y
    ensures Apply("!=", x, y) == Number(1) <==> x < y || y < x
    ensures Apply("<", x, y) == Number(1) <==> x < y
    ensures Apply(">", x, y) == Number(1) <==> y < x
    ensures Apply("<=", x, y) == Number(1) <==> !(y < x)
    ensures Apply(">=", x, y) == Number(1) <==> !(x < y)
    ensures forall op :: op in ["==", "!=", "<", ">", "<=", ">="] && Apply(op, x, y) != Number(1) ==>
              Apply(op, x, y) == Number(0)
  {
  }

  /** A power fails exactly for a negative exponent; it is one for exponent zero, and one step of the
      exponent is one multiplication. */
  lemma PowerExactly(x: i64, y: i64)
    ensures Apply("**", x, y) == Malformed(NegativeExponent) <==> y < 0
    ensures Apply("**", x, 0) == Number(1)
    ensures y > 0 ==> Apply("**", x, y - 1).Number? && Apply("**", x, y) == Apply("*", Apply("**", x, y - 1).value, x)
  {
    hide Wrap;
    WrapSmall(1);
    if y > 0 {
      WrapFactor(Pow(x, y - 1), x);
      Commute(Pow(x, y - 1), x);
    }
  }

  // ----- Unary operators -----

  /** Minus gives zero with its operand, `+` changes nothing, `!` is one for zero and zero otherwise, and `~`
      turns every bit. */
  lemma UnaryExactly(x: i64)
    ensures Apply("+", UnaryValue('-', x), x) == Number(0)
    ensures UnaryValue('+', x) == x
    ensures UnaryValue('!', x) == (if x == 0 then 1 else 0)
    ensures forall i: nat :: i < 64 ==> (Bit(UnaryValue('~', x), i) <==> !Bit(x, i))
  {
    WrapSummand(0 - x, x);
    forall i: nat | i < 64
      ensures Bit(UnaryValue('~', x), i) <==> !Bit(x, i)
    {
      TurnedBit(x, i);
    }
  }

  lemma {:induction false} TurnedBit(x: int, i: nat)
    ensures Bit(0 - x - 1, i) <==> !Bit(x, i)
    decreases i
  {
    if i > 0 {
      assert (0 - x - 1) / 2 == 0 - x / 2 - 1;
      TurnedBit(x / 2, i - 1);
    }
  }
}
