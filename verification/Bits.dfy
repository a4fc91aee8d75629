/** Bitwise operators on natural numbers, least significant bit first. */
module Bits {
  import opened Arithmetic

  function Xor(a: nat, b: nat): nat
    decreases a + b
  {
    if a == 0 && b == 0 then 0 else (a + b) % 2 + 2 * Xor(a / 2, b / 2)
  }

  function Power2(n: nat): (p: nat)
    ensures p > 0
  {
    if n == 0 then 1 else 2 * Power2(n - 1)
  }

  /** Go's `>>` on an unsigned operand: one bit is dropped per step. */
  function ShiftRight(x: nat, k: nat): (y: nat)
    decreases k
    ensures y <= x
    ensures k > 0 && x > 0 ==> y < x
  {
    if k == 0 then x else ShiftRight(x / 2, k - 1)
  }

  lemma {:induction false} ShiftDivides(x: nat, k: nat)
    ensures ShiftRight(x, k) == x / Power2(k)
    decreases k
  {
    if k > 0 {
      ShiftDivides(x / 2, k - 1);
      DivideTwice(x, Power2(k - 1));
    }
  }

  lemma DivideTwice(x: nat, d: nat)
    requires d > 0
    ensures x / 2 / d == x / (2 * d)
  {
    var q := x / 2 / d;
    DivisionBounds(x / 2, d);
    assert q * (2 * d) == 2 * (q * d);
    DivisionUnique(x, 2 * d, q);
  }

  lemma {:induction false} XorZero(a: nat)
    ensures Xor(a, 0) == a && Xor(0, a) == a
  {
    if a > 0 {
      XorZero(a / 2);
    }
  }

  lemma {:induction false} XorCancels(a: nat, b: nat)
    ensures Xor(Xor(a, b), b) == a
    decreases a + b
  {
    hide Xor;
    if a > 0 || b > 0 {
      XorCancels(a / 2, b / 2);
      XorStep(a, b);
      XorStep(Xor(a, b), b);
    } else {
      XorZero(0);
    }
  }

  lemma XorStep(a: nat, b: nat)
    ensures Xor(a, b) % 2 == (a + b) % 2 && Xor(a, b) / 2 == Xor(a / 2, b / 2)
  {
    if a == 0 && b == 0 {
      XorZero(0);
    } else {
      LowBit((a + b) % 2, Xor(a / 2, b / 2));
    }
  }

  /** Bit i of a number, the lowest being bit 0. */
  function Bit(x: nat, i: nat): (bit: nat)
    ensures bit < 2
  {
    (x / Power2(i)) % 2
  }

  /** Bit by bit, the exclusive or says where its operands differ. */
  lemma {:induction false} XorBits(a: nat, b: nat, i: nat)
    ensures Bit(Xor(a, b), i) == if Bit(a, i) == Bit(b, i) then 0 else 1
    decreases i
  {
    hide Xor, Bit;
    XorStep(a, b);
    if i == 0 {
      LowestBit(a);
      LowestBit(b);
      LowestBit(Xor(a, b));
    } else {
      NextBit(a, i);
      NextBit(b, i);
      NextBit(Xor(a, b), i);
      XorBits(a / 2, b / 2, i - 1);
    }
  }

  lemma LowestBit(x: nat)
    ensures Bit(x, 0) == x % 2
  {
  }

  lemma NextBit(x: nat, i: nat)
    requires i > 0
    ensures Bit(x, i) == Bit(x / 2, i - 1)
  {
    DivideTwice(x, Power2(i - 1));
  }

  lemma LowBit(bit: nat, rest: nat)
    requires bit < 2
    ensures (bit + 2 * rest) % 2 == bit && (bit + 2 * rest) / 2 == rest
  {
  }

  lemma {:induction false} XorFits(a: nat, b: nat, n: nat)
    requires a < Power2(n) && b < Power2(n)
    ensures Xor(a, b) < Power2(n)
  {
    if n > 0 {
      XorFits(a / 2, b / 2, n - 1);
    }
  }

  lemma {:induction false} ShiftXor(a: nat, b: nat, k: nat)
    ensures ShiftRight(Xor(a, b), k) == Xor(ShiftRight(a, k), ShiftRight(b, k))
    decreases k
  {
    if k > 0 {
      assert Xor(a, b) / 2 == Xor(a / 2, b / 2);
      ShiftXor(a / 2, b / 2, k - 1);
    }
  }

  // ---- digit by digit ----------------------------------------------------------

  lemma XorOfBits(c: nat, d: nat)
    requires c < 2 && d < 2
    ensures Xor(c, d) == (c + d) % 2
  {
    hide Xor;
    XorStep(c, d);
    XorZero(0);
  }

  lemma XorLow(a: nat, b: nat, c: nat, d: nat)
    requires c < 2 && d < 2
    ensures Xor(2 * a + c, 2 * b + d) == 2 * Xor(a, b) + Xor(c, d)
  {
    hide Xor;
    XorStep(2 * a + c, 2 * b + d);
    XorOfBits(c, d);
  }

  lemma XorQuarter(a: nat, b: nat, c: nat, d: nat)
    requires c < 4 && d < 4
    ensures Xor(4 * a + c, 4 * b + d) == 4 * Xor(a, b) + Xor(c, d)
  {
    hide Xor;
    XorLow(2 * a + c / 2, 2 * b + d / 2, c % 2, d % 2);
    XorLow(a, b, c / 2, d / 2);
    XorLow(c / 2, d / 2, c % 2, d % 2);
  }

  lemma XorDigit(a: nat, b: nat, c: nat, d: nat)
    requires c < 16 && d < 16
    ensures Xor(16 * a + c, 16 * b + d) == 16 * Xor(a, b) + Xor(c, d)
  {
    hide Xor;
    XorQuarter(4 * a + c / 4, 4 * b + d / 4, c % 4, d % 4);
    XorQuarter(a, b, c / 4, d / 4);
    XorQuarter(c / 4, d / 4, c % 4, d % 4);
  }

  /** The exclusive or of two hexadecimal digits, given by their bits. */
  lemma XorNibble(x: nat, y: nat, z: nat, a: nat, b: nat, c: nat, d: nat, e: nat, f: nat, g: nat, h: nat)
    requires a < 2 && b < 2 && c < 2 && d < 2 && e < 2 && f < 2 && g < 2 && h < 2
    requires x == 8 * a + 4 * b + 2 * c + d && y == 8 * e + 4 * f + 2 * g + h
    requires z == 8 * ((a + e) % 2) + 4 * ((b + f) % 2) + 2 * ((c + g) % 2) + (d + h) % 2
    ensures Xor(x, y) == z
  {
    hide Xor;
    XorLow(4 * a + 2 * b + c, 4 * e + 2 * f + g, d, h);
    XorLow(2 * a + b, 2 * e + f, c, g);
    XorLow(a, e, b, f);
    XorOfBits(a, e);
    XorOfBits(b, f);
    XorOfBits(c, g);
    XorOfBits(d, h);
  }

  /** Four hexadecimal digits. */
  function Quad(a: nat, b: nat, c: nat, d: nat): nat { 4096 * a + 256 * b + 16 * c + d }

  lemma XorQuad(p: nat, q: nat, a: nat, b: nat, c: nat, d: nat, e: nat, f: nat, g: nat, h: nat)
    requires a < 16 && b < 16 && c < 16 && d < 16 && e < 16 && f < 16 && g < 16 && h < 16
    ensures Xor(65536 * p + Quad(a, b, c, d), 65536 * q + Quad(e, f, g, h)) ==
            65536 * Xor(p, q) + Quad(Xor(a, e), Xor(b, f), Xor(c, g), Xor(d, h))
  {
    hide Xor;
    XorDigit(4096 * p + 256 * a + 16 * b + c, 4096 * q + 256 * e + 16 * f + g, d, h);
    XorDigit(256 * p + 16 * a + b, 256 * q + 16 * e + f, c, g);
    XorDigit(16 * p + a, 16 * q + e, b, f);
    XorDigit(p, q, a, e);
  }

  // ---- x ^ x >> k and its inverse --------------------------------------------

  function XorShift(x: nat, k: nat): nat {
    Xor(x, ShiftRight(x, k))
  }

  /** y ^ y >> k ^ y >> 2k ^ ..., until the shifts run out of bits. */
  function XorUnshift(y: nat, k: nat): nat
    requires k > 0
    decreases y
  {
    if y == 0 then 0 else Xor(y, XorUnshift(ShiftRight(y, k), k))
  }

  lemma {:induction false} XorShiftOfUnshift(y: nat, k: nat)
    requires k > 0
    ensures XorShift(XorUnshift(y, k), k) == y
    decreases y
  {
    if y == 0 {
      XorZero(0);
    } else {
      var high := XorUnshift(ShiftRight(y, k), k);
      XorShiftOfUnshift(ShiftRight(y, k), k);
      ShiftXor(y, high, k);
      XorCancels(high, ShiftRight(high, k));
      XorCommutes(high, ShiftRight(high, k));
      XorCommutes(ShiftRight(y, k), ShiftRight(high, k));
      XorCancels(y, high);
    }
  }

  lemma {:induction false} XorCommutes(a: nat, b: nat)
    ensures Xor(a, b) == Xor(b, a)
    decreases a + b
  {
    if a > 0 || b > 0 {
      XorCommutes(a / 2, b / 2);
    }
  }

  lemma {:induction false} XorUnshiftOfShift(x: nat, k: nat)
    requires k > 0
    ensures XorUnshift(XorShift(x, k), k) == x
    decreases x
  {
    if x > 0 {
      var high := ShiftRight(x, k);
      XorCancels(x, high);
      XorZero(high);
      assert XorShift(x, k) != 0;
      ShiftXor(x, high, k);
      XorUnshiftOfShift(high, k);
    }
  }

  lemma {:induction false} XorUnshiftFits(y: nat, k: nat, n: nat)
    requires k > 0 && y < Power2(n)
    ensures XorUnshift(y, k) < Power2(n)
    decreases y
  {
    if y > 0 {
      XorUnshiftFits(ShiftRight(y, k), k, n);
      XorFits(y, XorUnshift(ShiftRight(y, k), k), n);
    }
  }
}
