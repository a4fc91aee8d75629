/** The evaluator's random numbers: a SplitMix64-style generator feeding
    rejection sampling. Uniformity and termination both come from the mixer
    being a bijection on 64-bit words. */
module Random {
  import opened Arithmetic
  import opened Bits
  import opened GoInt

  const GOLDEN: UInt64 := 0x9e37_79b9_7f4a_7c15
  const MIX_1: UInt64 := 0xbf58_476d_1ce4_e5b9
  const MIX_2: UInt64 := 0x94d0_49bb_1331_11eb

  // The inverses of the three odd constants modulo 2^64.
  const GOLDEN_INVERSE: UInt64 := 0xf1de_83e1_9937_733d
  const MIX_1_INVERSE: UInt64 := 0x96de_1b17_3f11_9089
  const MIX_2_INVERSE: UInt64 := 0x3196_42b2_d24d_8ec3

  /** Wrapping uint64 multiplication. */
  function Scale(x: int, c: int): UInt64 {
    (x * c) % TWO_64
  }

  /** A word with its own upper bits folded into the lower ones. */
  function Fold(x: UInt64, k: nat): UInt64 {
    FoldFits(x, k);
    XorShift(x, k)
  }

  /** What is folded in is the word divided by a power of two. */
  lemma FoldIs(x: UInt64, k: nat)
    ensures var high := x / Power2(k); high >= 0 && Fold(x, k) == Xor(x, high)
  {
    ShiftDivides(x, k);
    hide Xor, Power2, ShiftRight;
    var high := x / Power2(k);
    assert ShiftRight(x, k) == high;
  }

  lemma FoldFits(x: UInt64, k: nat)
    ensures XorShift(x, k) < TWO_64
  {
    hide Power2;
    WordFits(x);
    XorFits(x, ShiftRight(x, k), 64);
  }

  function Unfold(y: UInt64, k: nat): UInt64
    requires k > 0
  {
    WordFits(y);
    XorUnshiftFits(y, k, 64);
    XorUnshift(y, k)
  }

  lemma WordFits(x: UInt64)
    ensures x < Power2(64) == TWO_64
  {
    hide Power2;
    PowerOfOne();
    Power2Adds(1, 1);
    Power2Adds(2, 2);
    Power2Adds(4, 4);
    Power2Adds(8, 8);
    Power2Adds(16, 16);
    Power2Adds(32, 32);
  }

  lemma PowerOfOne()
    ensures Power2(1) == 2
  {
  }

  lemma {:induction false} Power2Adds(m: nat, n: nat)
    ensures Power2(m + n) == Power2(m) * Power2(n)
  {
    if m > 0 {
      Power2Adds(m - 1, n);
    }
  }

  /** The output of the generator whose state word is `state`. */
  function Mix(state: UInt64): UInt64 {
    Fold(Scale(Fold(Scale(Fold(state, 30), MIX_1), 27), MIX_2), 31)
  }

  function Unmix(raw: UInt64): UInt64 {
    Unfold(Scale(Unfold(Scale(Unfold(raw, 31), MIX_2_INVERSE), 27), MIX_1_INVERSE), 30)
  }

  lemma ScaleInverts(x: UInt64, c: UInt64, d: UInt64)
    requires (c * d) % TWO_64 == 1
    ensures Scale(Scale(x, c), d) == x
  {
    var scaled, k := Scale(x, c), (x * c) / TWO_64;
    var e := (c * d) / TWO_64;
    assert x * c == scaled + k * TWO_64 && c * d == 1 + e * TWO_64;
    assert (x * c) * d == x * (c * d) == x + (x * e) * TWO_64;
    assert (x * c) * d == scaled * d + (k * d) * TWO_64;
    ModuloUnique(scaled * d, TWO_64, x, x * e - k * d);
  }

  lemma FoldInverts(x: UInt64, k: nat)
    requires k > 0
    ensures Unfold(Fold(x, k), k) == x && Fold(Unfold(x, k), k) == x
  {
    XorUnshiftOfShift(x, k);
    XorShiftOfUnshift(x, k);
  }

  /** The mixer is a bijection on 64-bit words, with Unmix its inverse. */
  lemma MixBijective(x: UInt64)
    ensures Unmix(Mix(x)) == x
    ensures Mix(Unmix(x)) == x
  {
    hide Fold, Unfold, Scale;
    InverseConstants();
    var a := Fold(x, 30);
    var b := Fold(Scale(a, MIX_1), 27);
    FoldInverts(x, 30);
    FoldInverts(Scale(a, MIX_1), 27);
    FoldInverts(Scale(b, MIX_2), 31);
    ScaleInverts(a, MIX_1, MIX_1_INVERSE);
    ScaleInverts(b, MIX_2, MIX_2_INVERSE);
    var c := Unfold(x, 31);
    var d := Unfold(Scale(c, MIX_2_INVERSE), 27);
    FoldInverts(x, 31);
    FoldInverts(Scale(c, MIX_2_INVERSE), 27);
    FoldInverts(Scale(d, MIX_1_INVERSE), 30);
    ScaleInverts(c, MIX_2_INVERSE, MIX_2);
    ScaleInverts(d, MIX_1_INVERSE, MIX_1);
  }

  lemma InverseConstants()
    ensures (MIX_1 * MIX_1_INVERSE) % TWO_64 == 1 && (MIX_1_INVERSE * MIX_1) % TWO_64 == 1
    ensures (MIX_2 * MIX_2_INVERSE) % TWO_64 == 1 && (MIX_2_INVERSE * MIX_2) % TWO_64 == 1
    ensures (GOLDEN * GOLDEN_INVERSE) % TWO_64 == 1 && (GOLDEN_INVERSE * GOLDEN) % TWO_64 == 1
  {
  }

  // ---- draws from one seed ---------------------------------------------------

  /** The state word after n draws. */
  function StateAfter(seed: UInt64, n: nat): UInt64 {
    (seed + n * GOLDEN) % TWO_64
  }

  /** The n-th number drawn, counting from 0. */
  function Draw(seed: UInt64, n: nat): UInt64 {
    Mix(StateAfter(seed, n + 1))
  }

  /** A known word: the first draw of seed 0. */
  lemma FirstWordOfZero()
    ensures Draw(0, 0) == 0xe220a8397b1dcdaf
  {
    hide Xor, Power2, Fold;
    FoldingPowers();
    FoldIs(GOLDEN, 30);
    FirstFold(0x9e37, 0);
    FoldIs(0x6f68261b57e7a770, 27);
    SecondFold(0x6f68, 0);
    FoldIs(0xe220a838bf5c9dde, 31);
    ThirdFold(0xe220, 0);
  }

  lemma FoldingPowers()
    ensures Power2(27) == 0x800_0000 && Power2(30) == 0x4000_0000 && Power2(31) == 0x8000_0000
  {
    PowerOfOne();
    hide Power2;
    Power2Adds(1, 1);
    Power2Adds(2, 1);
    Power2Adds(3, 3);
    Power2Adds(6, 6);
    Power2Adds(12, 12);
    Power2Adds(24, 3);
    Power2Adds(27, 3);
    Power2Adds(30, 1);
  }

  lemma FirstFold(top: nat, none: nat)
    requires top == 0x9e37 && none == 0
    ensures Xor(0x9e3779b97f4a7c15, 0x278dde6e5) == 0x9e3779bb07979af0
  {
    hide Xor;
    XorZero(top);
    XorNibble(7, 0, 7, 0, 1, 1, 1, 0, 0, 0, 0);
    XorNibble(9, 0, 9, 1, 0, 0, 1, 0, 0, 0, 0);
    XorNibble(11, 0, 11, 1, 0, 1, 1, 0, 0, 0, 0);
    XorNibble(9, 2, 11, 1, 0, 0, 1, 0, 0, 1, 0);
    XorQuad(top, none, 7, 9, 11, 9, 0, 0, 0, 2);
    XorNibble(7, 7, 0, 0, 1, 1, 1, 0, 1, 1, 1);
    XorNibble(15, 8, 7, 1, 1, 1, 1, 1, 0, 0, 0);
    XorNibble(4, 13, 9, 0, 1, 0, 0, 1, 1, 0, 1);
    XorNibble(10, 13, 7, 1, 0, 1, 0, 1, 1, 0, 1);
    XorQuad(0x9e3779b9, 0x2, 7, 15, 4, 10, 7, 8, 13, 13);
    XorNibble(7, 14, 9, 0, 1, 1, 1, 1, 1, 1, 0);
    XorNibble(12, 6, 10, 1, 1, 0, 0, 0, 1, 1, 0);
    XorNibble(1, 14, 15, 0, 0, 0, 1, 1, 1, 1, 0);
    XorNibble(5, 5, 0, 0, 1, 0, 1, 0, 1, 0, 1);
    XorQuad(0x9e3779b97f4a, 0x278dd, 7, 12, 1, 5, 14, 6, 14, 5);
  }

  lemma SecondFold(top: nat, none: nat)
    requires top == 0x6f68 && none == 0
    ensures Xor(0x6f68261b57e7a770, 0xded04c36a) == 0x6f682616bae3641a
  {
    hide Xor;
    XorZero(top);
    XorNibble(2, 0, 2, 0, 0, 1, 0, 0, 0, 0, 0);
    XorNibble(6, 0, 6, 0, 1, 1, 0, 0, 0, 0, 0);
    XorNibble(1, 0, 1, 0, 0, 0, 1, 0, 0, 0, 0);
    XorNibble(11, 13, 6, 1, 0, 1, 1, 1, 1, 0, 1);
    XorQuad(top, none, 2, 6, 1, 11, 0, 0, 0, 13);
    XorNibble(5, 14, 11, 0, 1, 0, 1, 1, 1, 1, 0);
    XorNibble(7, 13, 10, 0, 1, 1, 1, 1, 1, 0, 1);
    XorNibble(14, 0, 14, 1, 1, 1, 0, 0, 0, 0, 0);
    XorNibble(7, 4, 3, 0, 1, 1, 1, 0, 1, 0, 0);
    XorQuad(0x6f68261b, 0xd, 5, 7, 14, 7, 14, 13, 0, 4);
    XorNibble(10, 12, 6, 1, 0, 1, 0, 1, 1, 0, 0);
    XorNibble(7, 3, 4, 0, 1, 1, 1, 0, 0, 1, 1);
    XorNibble(7, 6, 1, 0, 1, 1, 1, 0, 1, 1, 0);
    XorNibble(0, 10, 10, 0, 0, 0, 0, 1, 0, 1, 0);
    XorQuad(0x6f68261b57e7, 0xded04, 10, 7, 7, 0, 12, 3, 6, 10);
  }

  lemma ThirdFold(top: nat, none: nat)
    requires top == 0xe220 && none == 0
    ensures Xor(0xe220a838bf5c9dde, 0x1c4415071) == 0xe220a8397b1dcdaf
  {
    hide Xor;
    XorZero(top);
    XorNibble(10, 0, 10, 1, 0, 1, 0, 0, 0, 0, 0);
    XorNibble(8, 0, 8, 1, 0, 0, 0, 0, 0, 0, 0);
    XorNibble(3, 0, 3, 0, 0, 1, 1, 0, 0, 0, 0);
    XorNibble(8, 1, 9, 1, 0, 0, 0, 0, 0, 0, 1);
    XorQuad(top, none, 10, 8, 3, 8, 0, 0, 0, 1);
    XorNibble(11, 12, 7, 1, 0, 1, 1, 1, 1, 0, 0);
    XorNibble(15, 4, 11, 1, 1, 1, 1, 0, 1, 0, 0);
    XorNibble(5, 4, 1, 0, 1, 0, 1, 0, 1, 0, 0);
    XorNibble(12, 1, 13, 1, 1, 0, 0, 0, 0, 0, 1);
    XorQuad(0xe220a838, 0x1, 11, 15, 5, 12, 12, 4, 4, 1);
    XorNibble(9, 5, 12, 1, 0, 0, 1, 0, 1, 0, 1);
    XorNibble(13, 0, 13, 1, 1, 0, 1, 0, 0, 0, 0);
    XorNibble(13, 7, 10, 1, 1, 0, 1, 0, 1, 1, 1);
    XorNibble(14, 1, 15, 1, 1, 1, 0, 0, 0, 0, 1);
    XorQuad(0xe220a838bf5c, 0x1c441, 9, 13, 13, 14, 5, 0, 7, 1);
  }

  lemma StartOfDraws(seed: UInt64)
    ensures StateAfter(seed, 0) == seed
  {
  }

  lemma StateStep(seed: UInt64, n: nat)
    ensures StateAfter(seed, n + 1) == (StateAfter(seed, n) + GOLDEN) % TWO_64
  {
    var a := seed + n * GOLDEN;
    assert a == a % TWO_64 + (a / TWO_64) * TWO_64;
    assert seed + (n + 1) * GOLDEN == a + GOLDEN;
    ShiftModulo(a % TWO_64 + GOLDEN, a / TWO_64, TWO_64);
  }

  /** Drawing continues where the previous draws left the state. */
  lemma DrawShifts(seed: UInt64, n: nat)
    ensures StateAfter(StateAfter(seed, n), 1) == StateAfter(seed, n + 1)
    ensures Draw(StateAfter(seed, n), 0) == Draw(seed, n)
  {
    hide Mix;
    StateStep(seed, n);
    StateStep(StateAfter(seed, n), 0);
  }

  /** Scaling a state back by the inverse of the increment counts the draws. */
  lemma StateCounts(seed: UInt64, n: nat)
    ensures Scale(StateAfter(seed, n) - seed, GOLDEN_INVERSE) == n % TWO_64
  {
    InverseConstants();
    var a, q := seed + n * GOLDEN, (seed + n * GOLDEN) / TWO_64;
    assert a == StateAfter(seed, n) + q * TWO_64;
    var e := (GOLDEN * GOLDEN_INVERSE) / TWO_64;
    assert GOLDEN * GOLDEN_INVERSE == 1 + e * TWO_64;
    assert (n * GOLDEN) * GOLDEN_INVERSE == n * (GOLDEN * GOLDEN_INVERSE) == n + (n * e) * TWO_64;
    var d := StateAfter(seed, n) - seed;
    assert d == n * GOLDEN - q * TWO_64;
    assert d * GOLDEN_INVERSE == n + (n * e - q * GOLDEN_INVERSE) * TWO_64;
    ShiftModulo(n, n * e - q * GOLDEN_INVERSE, TWO_64);
  }

  ghost predicate Drawn(seed: UInt64, raw: UInt64) {
    exists i: UInt64 :: Draw(seed, i) == raw
  }

  /** 2^64 consecutive draws are a permutation of the 64-bit words: no word
      comes twice, and every word comes. */
  lemma DrawsPermute(seed: UInt64)
    ensures forall i: UInt64, j: UInt64 :: Draw(seed, i) == Draw(seed, j) ==> i == j
    ensures forall raw: UInt64 :: Drawn(seed, raw)
  {
    forall i: UInt64, j: UInt64 | Draw(seed, i) == Draw(seed, j)
      ensures i == j
    {
      DrawInjective(seed, i, j);
    }
    forall raw: UInt64
      ensures Drawn(seed, raw)
    {
      var i := DrawIndex(seed, raw);
      assert Draw(seed, i) == raw;
    }
  }

  lemma DrawInjective(seed: UInt64, i: UInt64, j: UInt64)
    requires Draw(seed, i) == Draw(seed, j)
    ensures i == j
  {
    hide Mix, Unmix, StateAfter;
    MixBijective(StateAfter(seed, i + 1));
    MixBijective(StateAfter(seed, j + 1));
    StatesDiffer(seed, i, j);
  }

  lemma StatesDiffer(seed: UInt64, i: UInt64, j: UInt64)
    requires StateAfter(seed, i + 1) == StateAfter(seed, j + 1)
    ensures i == j
  {
    hide Scale, StateAfter;
    StateCounts(seed, i + 1);
    StateCounts(seed, j + 1);
  }

  lemma DrawIndex(seed: UInt64, raw: UInt64) returns (i: UInt64)
    ensures Draw(seed, i) == raw
  {
    hide Mix, Unmix;
    MixBijective(raw);
    InverseConstants();
    var d := (Unmix(raw) - seed) % TWO_64;
    var n := Scale(d, GOLDEN_INVERSE);
    ScaleInverts(d, GOLDEN_INVERSE, GOLDEN);
    assert n * GOLDEN == d + ((n * GOLDEN) / TWO_64) * TWO_64;
    StateReaches(seed, n, Unmix(raw));
    i := (n - 1) % TWO_64;
    if n == 0 {
      StateReaches(seed, TWO_64, Unmix(raw));
    }
  }

  lemma StateReaches(seed: UInt64, n: nat, target: UInt64)
    requires (n * GOLDEN) % TWO_64 == (target - seed) % TWO_64
    ensures StateAfter(seed, n) == target
  {
    var g, t := n * GOLDEN, target - seed;
    assert g == g % TWO_64 + (g / TWO_64) * TWO_64 && t == t % TWO_64 + (t / TWO_64) * TWO_64;
    ModuloUnique(seed + g, TWO_64, target, g / TWO_64 - t / TWO_64);
  }
}
