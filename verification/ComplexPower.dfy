/** Complex powers with an Int exponent, over exact real components. */
module ComplexPower {
  import opened GoInt

  datatype Complex = Complex(re: real, im: real)

  /** A Go complex128 result; dividing by zero is the only way out of the numbers. */
  datatype Outcome = Finite(value: Complex) | NotFinite

  const ONE := Complex(1.0, 0.0)
  const ZERO := Complex(0.0, 0.0)

  function Times(a: Complex, b: Complex): Complex {
    Complex(a.re * b.re - a.im * b.im, a.re * b.im + a.im * b.re)
  }

  function Product(x: real, y: real): real {
    x * y
  }

  function Norm(a: Complex): real {
    Product(a.re, a.re) + Product(a.im, a.im)
  }

  /** The quotient 1 / a. */
  function Reciprocal(a: Complex): Outcome {
    NormZero(a);
    if a == ZERO then NotFinite else Finite(Complex(a.re / Norm(a), -a.im / Norm(a)))
  }

  lemma NormZero(a: Complex)
    ensures Norm(a) == 0.0 <==> a == ZERO
  {
    hide Product;
    SquareSign(a.re);
    SquareSign(a.im);
  }

  lemma SquareSign(x: real)
    ensures Product(x, x) >= 0.0
    ensures Product(x, x) == 0.0 <==> x == 0.0
  {
    hide Product;
    ProductSigns(x, x);
    if x < 0.0 {
      PositiveProduct(-x, -x);
    } else if x > 0.0 {
      PositiveProduct(x, x);
    }
  }

  lemma PositiveProduct(x: real, y: real)
    requires x > 0.0 && y > 0.0
    ensures Product(x, y) > 0.0
  {
  }

  lemma ProductSigns(x: real, y: real)
    ensures Product(-x, -y) == Product(x, y)
    ensures Product(0.0, y) == 0.0
  {
  }

  lemma RealCancels(a: real, b: real, n: real)
    requires n != 0.0 && a * n == b * n
    ensures a == b
  {
    assert (a - b) * n == 0.0;
  }

  lemma ReciprocalInverts(a: Complex)
    requires a != ZERO
    ensures Times(a, Reciprocal(a).value) == ONE
  {
    NormZero(a);
    var n := Norm(a);
    var u, v := a.re / n, -a.im / n;
    assert u * n == a.re && v * n == -a.im;
    Distribute(a.re, u, a.im, v, n);
    RealCancels(a.re * u - a.im * v, 1.0, n);
    RealCancels(a.re * v + a.im * u, 0.0, n);
  }

  lemma Distribute(x: real, u: real, y: real, v: real, n: real)
    ensures (x * u - y * v) * n == x * (u * n) - y * (v * n)
    ensures (x * v + y * u) * n == x * (v * n) + y * (u * n)
  {
  }

  function NaturalPower(base: Complex, exponent: nat): Complex {
    if exponent == 0 then ONE else Times(base, NaturalPower(base, exponent - 1))
  }

  /** The power for every integer exponent. */
  function IntegerPower(base: Complex, exponent: int): Outcome {
    if exponent >= 0 then
      Finite(NaturalPower(base, exponent))
    else
      Reciprocal(NaturalPower(base, -exponent))
  }

  method ComplexIntPower(base: Complex, exponent: Int64) returns (r: Outcome)
    ensures r == IntegerPower(base, exponent)
  {
    hide Times;
    if exponent == 0 {
      return Finite(ONE);
    }
    MagnitudeOfBits(exponent);
    hide ToUInt64;
    var negative := exponent < 0;
    var magnitude: UInt64;
    if negative {
      magnitude := ToUInt64(ToUInt64(-(exponent + 1)) + 1);
    } else {
      magnitude := ToUInt64(exponent);
    }
    var result, square := ONE, base;
    TimesOne(NaturalPower(base, magnitude));
    while magnitude != 0
      invariant Times(result, NaturalPower(square, magnitude)) == NaturalPower(base, Magnitude(exponent))
    {
      PowerHalves(square, magnitude);
      if magnitude % 2 != 0 {
        TimesAssociates(result, square, NaturalPower(Times(square, square), magnitude / 2));
        result := Times(result, square);
      }
      magnitude := magnitude / 2;
      if magnitude != 0 {
        square := Times(square, square);
      }
    }
    TimesOne(result);
    if negative {
      r := Reciprocal(result);
    } else {
      r := Finite(result);
    }
  }

  /** The unsigned detour gives the magnitude of every int64, the least one included. */
  lemma MagnitudeOfBits(exponent: Int64)
    ensures exponent < 0 ==> ToUInt64(ToUInt64(-(exponent + 1)) + 1) == Magnitude(exponent)
    ensures exponent >= 0 ==> ToUInt64(exponent) == Magnitude(exponent)
  {
  }

  lemma TimesOne(a: Complex)
    ensures Times(ONE, a) == a && Times(a, ONE) == a
  {
  }

  lemma TimesAssociates(a: Complex, b: Complex, c: Complex)
    ensures Times(Times(a, b), c) == Times(a, Times(b, c))
  {
  }

  lemma TimesCommutes(a: Complex, b: Complex)
    ensures Times(a, b) == Times(b, a)
  {
  }

  lemma TimesInterchanges(a: Complex, b: Complex, c: Complex, d: Complex)
    ensures Times(Times(a, b), Times(c, d)) == Times(Times(a, c), Times(b, d))
  {
    TimesAssociates(a, b, Times(c, d));
    TimesAssociates(b, c, d);
    TimesCommutes(b, c);
    TimesAssociates(c, b, d);
    TimesAssociates(a, c, Times(b, d));
  }

  lemma {:induction false} PowerHalves(base: Complex, exponent: nat)
    requires exponent > 0
    ensures NaturalPower(base, exponent)
         == var rest := NaturalPower(Times(base, base), exponent / 2);
            if exponent % 2 == 0 then rest else Times(base, rest)
  {
    if exponent >= 2 {
      var two, rest := Times(base, base), NaturalPower(Times(base, base), exponent / 2 - 1);
      if exponent > 2 {
        PowerHalves(base, exponent - 2);
      }
      assert NaturalPower(base, exponent) == Times(base, Times(base, NaturalPower(base, exponent - 2)));
      TimesAssociates(base, base, NaturalPower(base, exponent - 2));
      TimesAssociates(two, base, rest);
      TimesAssociates(base, two, rest);
      TimesCommutes(two, base);
    }
  }

  lemma {:induction false} NaturalPowerAdds(base: Complex, m: nat, n: nat)
    ensures NaturalPower(base, m + n) == Times(NaturalPower(base, m), NaturalPower(base, n))
  {
    if m > 0 {
      NaturalPowerAdds(base, m - 1, n);
      TimesAssociates(base, NaturalPower(base, m - 1), NaturalPower(base, n));
    }
  }

  lemma {:induction false} PowerNonZero(base: Complex, exponent: nat)
    requires base != ZERO
    ensures NaturalPower(base, exponent) != ZERO
  {
    hide Times;
    if exponent > 0 {
      PowerNonZero(base, exponent - 1);
      ProductNonZero(base, NaturalPower(base, exponent - 1));
    }
  }

  lemma ProductNonZero(a: Complex, b: Complex)
    requires a != ZERO && b != ZERO
    ensures Times(a, b) != ZERO
  {
    hide Times, Norm, Product;
    NormZero(a);
    NormZero(b);
    NormZero(Times(a, b));
    NormMultiplies(a, b);
  }

  lemma NormMultiplies(a: Complex, b: Complex)
    ensures Norm(Times(a, b)) == Norm(a) * Norm(b)
  {
  }

  /** Cancellation by a non-zero factor. */
  lemma TimesCancels(a: Complex, b: Complex, c: Complex)
    requires a != ZERO && Times(a, b) == Times(a, c)
    ensures b == c
  {
    var inverse := Reciprocal(a).value;
    ReciprocalInverts(a);
    TimesCommutes(inverse, a);
    TimesAssociates(inverse, a, b);
    TimesAssociates(inverse, a, c);
    TimesOne(b);
    TimesOne(c);
  }

  /** The law of exponents over all integers: for a non-zero base every power
      is finite and powers of a sum multiply. */
  lemma IntegerPowerAdds(base: Complex, m: int, n: int)
    requires base != ZERO
    ensures IntegerPower(base, m).Finite? && IntegerPower(base, n).Finite? && IntegerPower(base, m + n).Finite?
    ensures IntegerPower(base, m + n).value == Times(IntegerPower(base, m).value, IntegerPower(base, n).value)
  {
    hide Times;
    var k: nat := Magnitude(m) + Magnitude(n);
    PowerShifts(base, m, k);
    PowerShifts(base, n, k);
    PowerShifts(base, m + n, k + k);
    NaturalPowerAdds(base, k, k);
    NaturalPowerAdds(base, m + k, n + k);
    PowerNonZero(base, k + k);
    ProductFromShifts(NaturalPower(base, k), IntegerPower(base, m).value, IntegerPower(base, n).value,
                      IntegerPower(base, m + n).value);
  }

  lemma ProductFromShifts(shift: Complex, p: Complex, q: Complex, r: Complex)
    requires Times(shift, shift) != ZERO
    requires Times(Times(shift, shift), r) == Times(Times(shift, p), Times(shift, q))
    ensures r == Times(p, q)
  {
    TimesInterchanges(shift, p, shift, q);
    TimesCancels(Times(shift, shift), r, Times(p, q));
  }

  /** Multiplying by a large enough natural power clears a negative exponent. */
  lemma PowerShifts(base: Complex, m: int, k: nat)
    requires base != ZERO && m + k >= 0
    ensures IntegerPower(base, m).Finite?
    ensures Times(NaturalPower(base, k), IntegerPower(base, m).value) == NaturalPower(base, m + k)
  {
    if m >= 0 {
      NaturalPowerAdds(base, k, m);
    } else {
      var p := NaturalPower(base, -m);
      PowerNonZero(base, -m);
      ReciprocalInverts(p);
      NaturalPowerAdds(base, m + k, -m);
      TimesAssociates(NaturalPower(base, m + k), p, Reciprocal(p).value);
    }
  }
}
