/** The evaluator's checked Int operators. Each one works on wrapped 64-bit
    registers and decides overflow afterwards; the contracts say that the
    decision is exact. */
module IntArithmetic {
  import opened Arithmetic
  import opened GoInt
  import opened Outcomes

  type Checked = Outcome<Int64>

  /** The exact meaning of a checked operator whose mathematical result is i. */
  function Exact(i: int): Checked {
    if FitsInt64(i) then Value(i) else Raise(OverflowError)
  }

  function IntAdd(left: Int64, right: Int64): (r: Checked)
    ensures r == Exact(left + right)
  {
    var result := Wrap(left + right);
    AddWraps(left, right);
    if (right > 0 && result < left) || (right < 0 && result > left) then
      Raise(OverflowError)
    else
      Value(result)
  }

  lemma AddWraps(left: Int64, right: Int64)
    ensures left + right > MAX_INT64 ==> Wrap(left + right) == left + right - TWO_64
    ensures left + right < MIN_INT64 ==> Wrap(left + right) == left + right + TWO_64
  {
    if left + right > MAX_INT64 {
      WrapUnique(left + right, left + right - TWO_64, 1);
    } else if left + right < MIN_INT64 {
      WrapUnique(left + right, left + right + TWO_64, -1);
    }
  }

  function IntSubtract(left: Int64, right: Int64): (r: Checked)
    ensures r == Exact(left - right)
  {
    if right == MIN_INT64 then
      if left >= 0 then Raise(OverflowError) else Value(Wrap(left - right))
    else
      IntAdd(left, -right)
  }

  function IntMultiply(left: Int64, right: Int64): (r: Checked)
    ensures r == Exact(left * right)
  {
    if left == 0 || right == 0 then
      Value(0)
    else if (left == MIN_INT64 && right == -1) || (right == MIN_INT64 && left == -1) then
      Raise(OverflowError)
    else
      var result := Wrap(left * right);
      WrapThenDivide(left, right);
      if Quotient(result, right) != left then Raise(OverflowError) else Value(result)
  }

  /** The wrap-then-divide test: dividing the wrapped product gives the left
      operand back exactly when the product did not wrap. */
  lemma WrapThenDivide(left: Int64, right: Int64)
    requires left != 0 && right != 0
    requires !(left == MIN_INT64 && right == -1) && !(right == MIN_INT64 && left == -1)
    ensures Quotient(Wrap(left * right), right) == left <==> FitsInt64(left * right)
  {
    var product, wrapped := left * right, Wrap(left * right);
    if FitsInt64(product) {
      QuotientOfProduct(left, right);
    }
    if Quotient(wrapped, right) == left {
      if right == -1 {
        NegationFits(left);
      }
      QuotientRemainder(wrapped, right);
      hide Wrap, Quotient;
      assert left * right == product;
      NearWrap(product);
    }
  }

  /** A wrapped value is its own nearest: any other is 2^64 or more away. */
  lemma NearWrap(i: int)
    requires -TWO_63 < Wrap(i) - i < TWO_63
    ensures FitsInt64(i)
  {
  }

  /** Multiplying by -1 wraps only for the most negative register. */
  lemma NegationFits(left: Int64)
    requires left != MIN_INT64
    ensures Wrap(left * -1) == -left
  {
  }

  lemma QuotientOfProduct(left: Int64, right: Int64)
    requires right != 0 && FitsInt64(left * right)
    ensures Quotient(left * right, right) == left
  {
    var m, n := Magnitude(left), Magnitude(right);
    MagnitudeOfProduct(left, right);
    DivisionUnique(m * n, n, m);
  }

  lemma MagnitudeOfProduct(left: int, right: int)
    requires right != 0
    ensures Magnitude(left * right) == Magnitude(left) * Magnitude(right)
    ensures left != 0 ==> (left * right < 0 <==> (left < 0) != (right < 0))
  {
    var m: int, n: int := Magnitude(left), Magnitude(right);
    SignedProducts(m, n);
    assert m > 0 ==> m * n > 0;
  }

  lemma SignedProducts(m: int, n: int)
    ensures (-m) * n == -(m * n) && m * (-n) == -(m * n) && (-m) * (-n) == m * n
  {
  }

  /** Truncating division leaves a remainder smaller than the divisor. */
  lemma QuotientRemainder(a: Int64, b: Int64)
    requires b != 0
    requires !(a == MIN_INT64 && b == -1)
    ensures Magnitude(a - Quotient(a, b) * b) < Magnitude(b)
  {
    var m: int, n: int := Magnitude(a), Magnitude(b);
    var q: int := m / n;
    DivisionBounds(m, n);
    SignedProducts(q, n);
    var s := if (a < 0) == (b < 0) then q else -q;
    assert Quotient(a, b) == s by {
      assert FitsInt64(s);
    }
    assert s * b == if a < 0 then -(q * n) else q * n by {
      if b < 0 { assert b == -n; } else { assert b == n; }
    }
  }

  // ---- Int power by repeated squaring ----------------------------------------

  function Power(base: int, exponent: nat): int {
    if exponent == 0 then 1 else base * Power(base, exponent - 1)
  }

  /** The loop squares the base ahead of the digits it has consumed, yet it
      raises exactly when the mathematical power leaves the Int range. */
  method IntPower(base: Int64, exponent: Int64) returns (r: Checked)
    ensures r == if exponent < 0 then Raise(DomainError) else Exact(Power(base, exponent))
  {
    if exponent < 0 {
      return Raise(DomainError);
    }
    hide Power, Exact, Pending;
    var result: Int64, square: Int64, remaining := 1, base, exponent;
    PendingStart(base, exponent);
    while remaining > 0
      invariant remaining >= 0
      invariant Pending(result, square, remaining) == Power(base, exponent)
      invariant result == 0 ==> square == 0
    {
      PendingHalves(result, square, remaining);
      if remaining % 2 != 0 {
        var product := IntMultiply(result, square);
        if product.Raise? {
          IsExact(result * square);
          ProductOverflows(result, square, remaining / 2);
          IsExact(Power(base, exponent));
          return product;
        }
        IsExact(result * square);
        result := product.value;
      }
      remaining := remaining / 2;
      if remaining > 0 {
        var squared := IntMultiply(square, square);
        IsExact(square * square);
        if squared.Raise? {
          SquareOverflows(result, square, remaining);
          IsExact(Power(base, exponent));
          return squared;
        }
        square := squared.value;
      } else {
        PendingEnd(result, square);
        PendingEnd(result, square * square);
      }
    }
    PendingEnd(result, square);
    IsExact(result);
    return Value(result);
  }

  /** What is left to compute: the result so far times the power still to come. */
  ghost function Pending(result: int, square: int, remaining: nat): int {
    result * Power(square, remaining)
  }

  lemma PendingStart(base: int, exponent: nat)
    ensures Pending(1, base, exponent) == Power(base, exponent)
  {
  }

  lemma PendingEnd(result: int, square: int)
    ensures Pending(result, square, 0) == result
  {
  }

  lemma PendingHalves(result: int, square: int, remaining: nat)
    requires remaining > 0
    ensures Pending(result, square, remaining) ==
            Pending(if remaining % 2 == 0 then result else result * square, square * square, remaining / 2)
  {
    PowerHalves(square, remaining);
    Associate(result, square, Power(square * square, remaining / 2));
    hide Power;
  }

  lemma ProductOverflows(result: int, square: int, half: nat)
    requires !FitsInt64(result * square)
    ensures !FitsInt64(Pending(result * square, square * square, half))
  {
    SquarePowerPositive(square, half);
    OverflowPersists(result * square, Power(square * square, half));
  }

  lemma SquareOverflows(result: int, square: Int64, remaining: nat)
    requires !FitsInt64(square * square) && remaining > 0 && result != 0
    ensures !FitsInt64(Pending(result, square * square, remaining))
  {
    SquareOverflowPersists(result, square, remaining);
  }

  lemma IsExact(i: int)
    ensures Exact(i) == if FitsInt64(i) then Value(i) else Raise(OverflowError)
  {
  }

  lemma Associate(a: int, b: int, c: int)
    ensures (a * b) * c == a * (b * c)
  {
  }

  lemma PowerStep(base: int, exponent: nat)
    requires exponent > 0
    ensures Power(base, exponent) == base * Power(base, exponent - 1)
  {
  }

  lemma TwoMoreFactors(base: int, parity: int, rest: int)
    ensures base * (base * (parity * rest)) == parity * ((base * base) * rest)
  {
  }

  lemma {:induction false} PowerHalves(base: int, exponent: nat)
    requires exponent > 0
    ensures Power(base, exponent)
         == (if exponent % 2 == 0 then 1 else base) * Power(base * base, exponent / 2)
  {
    if exponent >= 3 {
      hide Power;
      PowerHalves(base, exponent - 2);
      PowerStep(base, exponent);
      PowerStep(base, exponent - 1);
      PowerStep(base * base, exponent / 2);
      TwoMoreFactors(base, if exponent % 2 == 0 then 1 else base, Power(base * base, exponent / 2 - 1));
    } else if exponent == 2 {
      assert Power(base, 2) == base * Power(base, 1) == base * (base * Power(base, 0));
      assert Power(base * base, 1) == (base * base) * Power(base * base, 0);
    } else {
      assert Power(base, 1) == base * Power(base, 0);
    }
  }

  lemma {:induction false} SquarePowerPositive(base: int, exponent: nat)
    ensures base != 0 ==> Power(base * base, exponent) >= 1
  {
    if base != 0 && exponent > 0 {
      SquarePowerPositive(base, exponent - 1);
      assert base * base >= 1;
      var rest := Power(base * base, exponent - 1);
      MultiplyMonotone(1, base * base, rest);
    }
  }

  /** A factor of at least 1 never brings an overflowed product back in range. */
  lemma OverflowPersists(product: int, factor: int)
    requires !FitsInt64(product) && factor >= 1
    ensures !FitsInt64(product * factor)
  {
    if product > 0 {
      MultiplyMonotone(1, factor, product);
    } else {
      MultiplyMonotone(1, factor, -product);
      assert factor * -product == -(product * factor);
    }
  }

  /** 2^63 is not a perfect square, so a square that overflows is too large
      for either sign of the result. */
  lemma SquareOverflowPersists(result: int, square: Int64, remaining: nat)
    requires !FitsInt64(square * square) && remaining > 0 && result != 0
    ensures !FitsInt64(result * Power(square * square, remaining))
  {
    var s := square * square;
    NoSquareRootOfTwo63(square);
    SquarePowerPositive(square, remaining - 1);
    var rest := Power(s, remaining - 1);
    MultiplyMonotone(1, rest, s);
    var power := s * rest;
    assert power > TWO_63;
    if result > 0 {
      MultiplyMonotone(1, result, power);
    } else {
      MultiplyMonotone(1, -result, power);
      assert -result * power == -(result * power);
    }
  }

  lemma NoSquareRootOfTwo63(i: int)
    ensures i * i != TWO_63
  {
    var m: int := Magnitude(i);
    assert i * i == m * m;
    if m <= 3037000499 {
      MultiplyMonotone(m, 3037000499, m);
    } else {
      MultiplyMonotone(3037000500, m, m);
    }
  }
}
