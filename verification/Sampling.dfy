/** Random integers in a range by rejection sampling, and the evaluator's
    session and List objects that use them. */
module Sampling {
  import opened Arithmetic
  import opened FiniteSets
  import opened GoInt
  import opened Outcomes
  import opened Random

  /** The number of integers in [minimum, maximum] as a uint64 register holds
      it: the full signed range has 2^64 of them and wraps to 0. */
  function Width(minimum: Int64, maximum: Int64): (width: UInt64)
    requires minimum <= maximum
    ensures width == if maximum - minimum + 1 == TWO_64 then 0 else maximum - minimum + 1
  {
    WidthWraps(minimum, maximum);
    ToUInt64(ToUInt64(maximum) - ToUInt64(minimum) + 1)
  }

  lemma WidthWraps(minimum: Int64, maximum: Int64)
    requires minimum <= maximum
    ensures ToUInt64(ToUInt64(maximum) - ToUInt64(minimum) + 1) == (maximum - minimum + 1) % TWO_64
  {
    var a, b := maximum / TWO_64, minimum / TWO_64;
    ShiftModulo(ToUInt64(maximum) - ToUInt64(minimum) + 1, a - b, TWO_64);
    assert ToUInt64(maximum) - ToUInt64(minimum) + 1 + (a - b) * TWO_64 == maximum - minimum + 1;
  }

  /** Go's -width % width on uint64 is 2^64 mod width, and rejects fewer than
      half of the words. */
  function RejectLimit(width: UInt64): (limit: UInt64)
    requires width > 0
    ensures limit == TWO_64 % width
    ensures limit < TWO_63
    ensures TWO_64 - limit == width * (TWO_64 / width)
  {
    RejectLimitExact(width);
    ToUInt64(0 - width) % width
  }

  lemma RejectLimitExact(width: UInt64)
    requires width > 0
    ensures ToUInt64(0 - width) % width == TWO_64 % width < TWO_63
    ensures TWO_64 - TWO_64 % width == width * (TWO_64 / width)
  {
    assert ToUInt64(0 - width) == TWO_64 - width;
    ShiftModulo(TWO_64, -1, width);
    RemainderBelowHalf(width);
    assert TWO_64 == width * (TWO_64 / width) + TWO_64 % width;
  }

  /** A remainder is below the divisor, and at most what is left after one divisor. */
  lemma RemainderBelowHalf(width: UInt64)
    requires width > 0
    ensures TWO_64 % width < TWO_63
  {
    if width > TWO_63 {
      ModuloUnique(TWO_64, width, TWO_64 - width, 1);
    }
  }

  predicate Accepted(minimum: Int64, maximum: Int64, raw: UInt64)
    requires minimum < maximum
  {
    var width := Width(minimum, maximum);
    width == 0 || raw >= RejectLimit(width)
  }

  /** The integer an accepted word stands for. */
  function Choice(minimum: Int64, maximum: Int64, raw: UInt64): (i: Int64)
    requires minimum < maximum
    ensures minimum <= i <= maximum
    ensures maximum - minimum + 1 < TWO_64 ==> i == minimum + raw % (maximum - minimum + 1)
    ensures maximum - minimum + 1 == TWO_64 ==> i == ToInt64(raw) && ToUInt64(i) == raw
  {
    var width := Width(minimum, maximum);
    if width == 0 then
      ToInt64(raw)
    else
      OffsetWraps(minimum, maximum, raw % width);
      ToInt64(ToUInt64(ToUInt64(minimum) + raw % width))
  }

  /** The wrapped unsigned addition lands on minimum + offset for every signed range. */
  lemma OffsetWraps(minimum: Int64, maximum: Int64, offset: nat)
    requires minimum + offset <= maximum
    ensures ToInt64(ToUInt64(ToUInt64(minimum) + offset)) == minimum + offset
  {
    ShiftModulo(ToUInt64(minimum) + offset, minimum / TWO_64, TWO_64);
    assert ToUInt64(minimum) + offset + (minimum / TWO_64) * TWO_64 == minimum + offset;
  }

  // ---- exact uniformity ------------------------------------------------------

  /** The accepted words that stand for k. */
  ghost function Preimages(minimum: Int64, maximum: Int64, k: Int64): set<int>
    requires minimum < maximum
  {
    set raw | raw in Interval(0, TWO_64) && Accepted(minimum, maximum, raw) && Choice(minimum, maximum, raw) == k
  }

  /** Every integer in the range is the choice of the same number of accepted words. */
  lemma ChoiceUniform(minimum: Int64, maximum: Int64, k: Int64)
    requires minimum < maximum && minimum <= k <= maximum
    ensures |Preimages(minimum, maximum, k)| == TWO_64 / (maximum - minimum + 1)
  {
    hide Interval, AcceptedResidues, Preimages;
    var width := maximum - minimum + 1;
    if width == TWO_64 {
      FullRangePreimages(minimum, maximum, k);
    } else {
      PartRangePreimages(minimum, maximum, k);
      AcceptedResiduesSize(width, k - minimum);
    }
  }

  lemma FullRangePreimages(minimum: Int64, maximum: Int64, k: Int64)
    requires maximum - minimum + 1 == TWO_64
    ensures Preimages(minimum, maximum, k) == {ToUInt64(k)}
  {
    hide Interval;
    forall raw: UInt64
      ensures Choice(minimum, maximum, raw) == k <==> raw == ToUInt64(k)
    {
      assert Choice(minimum, maximum, raw) == ToInt64(raw);
    }
  }

  ghost function AcceptedResidues(width: int, residue: int): set<int>
    requires width > 0
  {
    Residues(TWO_64 % width, TWO_64 % width + (TWO_64 / width) * width, width, residue)
  }

  lemma AcceptedResiduesSize(width: int, residue: int)
    requires 0 <= residue < width
    ensures |AcceptedResidues(width, residue)| == TWO_64 / width
  {
    hide Interval;
    ResiduesSize(TWO_64 % width, TWO_64 / width, width, residue);
  }

  lemma PartRangePreimages(minimum: Int64, maximum: Int64, k: Int64)
    requires minimum < maximum && minimum <= k <= maximum && maximum - minimum + 1 < TWO_64
    ensures Preimages(minimum, maximum, k) == AcceptedResidues(maximum - minimum + 1, k - minimum)
  {
    hide Choice, RejectLimit, Interval;
    var width := maximum - minimum + 1;
    assert RejectLimit(width) + (TWO_64 / width) * width == TWO_64;
    forall raw
      ensures raw in Preimages(minimum, maximum, k)
         <==> raw in AcceptedResidues(width, k - minimum)
    {
    }
  }

  /** The seeds whose n-th draw is accepted and stands for k. */
  ghost function Seeds(n: nat, minimum: Int64, maximum: Int64, k: Int64): set<int>
    requires minimum < maximum
  {
    set seed | seed in Interval(0, TWO_64) && Draw(seed, n) in Preimages(minimum, maximum, k)
  }

  /** Over all 2^64 seeds, the n-th draw chooses every integer in the range
      equally often, for every n. */
  lemma SeedsUniform(n: nat, minimum: Int64, maximum: Int64, k: Int64)
    requires minimum < maximum && minimum <= k <= maximum
    ensures |Seeds(n, minimum, maximum, k)| == TWO_64 / (maximum - minimum + 1)
  {
    hide Interval;
    var draw: int -> int := seed => if 0 <= seed < TWO_64 then Draw(seed, n) else seed;
    var seeds, raws := Seeds(n, minimum, maximum, k), Preimages(minimum, maximum, k);
    forall seed, other | seed in seeds && other in seeds && draw(seed) == draw(other)
      ensures seed == other
    {
      SeedDetermined(seed, other, n);
    }
    forall raw | raw in raws
      ensures exists seed :: seed in seeds && draw(seed) == raw
    {
      var seed := SeedOf(raw, n);
      assert seed in seeds && draw(seed) == raw;
    }
    BijectionSize(seeds, raws, draw);
    ChoiceUniform(minimum, maximum, k);
  }

  lemma SeedDetermined(seed: UInt64, other: UInt64, n: nat)
    requires Draw(seed, n) == Draw(other, n)
    ensures seed == other
  {
    hide Mix, Unmix;
    MixBijective(StateAfter(seed, n + 1));
    MixBijective(StateAfter(other, n + 1));
    SameResidueDifference(seed, other, (n + 1) * GOLDEN, TWO_64);
    SameResidue(seed, other, TWO_64);
  }

  lemma SameResidueDifference(i: int, j: int, shift: int, modulus: int)
    requires modulus > 0 && (i + shift) % modulus == (j + shift) % modulus
    ensures i % modulus == j % modulus
  {
    var a, b := (i + shift) / modulus, (j + shift) / modulus;
    assert i + shift == a * modulus + (i + shift) % modulus;
    assert j + shift == b * modulus + (j + shift) % modulus;
    assert i == j + (a - b) * modulus;
    ShiftModulo(j, a - b, modulus);
  }

  lemma SeedOf(raw: UInt64, n: nat) returns (seed: UInt64)
    ensures Draw(seed, n) == raw
  {
    hide Mix, Unmix;
    MixBijective(raw);
    var shift := (n + 1) * GOLDEN;
    seed := (Unmix(raw) - shift) % TWO_64;
    var q := (Unmix(raw) - shift) / TWO_64;
    assert seed + shift == Unmix(raw) + (-q) * TWO_64;
    ModuloUnique(seed + shift, TWO_64, Unmix(raw), -q);
  }

  // ---- termination -----------------------------------------------------------

  ghost predicate AllRejected(seed: UInt64, n: nat, limit: UInt64) {
    forall i :: 0 <= i < n ==> Draw(seed, i) < limit
  }

  /** A run of rejected draws is never longer than the number of rejected words. */
  lemma RejectionsBounded(seed: UInt64, n: nat, limit: UInt64)
    requires n <= TWO_64 && AllRejected(seed, n, limit)
    ensures n <= limit
  {
    var draw: int -> int := i => if i >= 0 then Draw(seed, i) else i;
    forall i: int, j: int | 0 <= i < n && 0 <= j < n && draw(i) == draw(j)
      ensures i == j
    {
      DrawInjective(seed, i, j);
    }
    PigeonHole(n, limit, draw);
  }

  lemma RejectedAgain(seed: UInt64, n: nat, limit: UInt64)
    requires n <= limit && AllRejected(seed, n, limit) && Draw(seed, n) < limit
    ensures AllRejected(seed, n + 1, limit)
    ensures n < limit
  {
    hide Draw;
    RejectionsBounded(seed, n + 1, limit);
  }

  /** The draw at which rejection sampling stops. */
  ghost predicate FirstAccepted(seed: UInt64, minimum: Int64, maximum: Int64, n: nat)
    requires minimum < maximum
  {
    && Accepted(minimum, maximum, Draw(seed, n))
    && forall i :: 0 <= i < n ==> !Accepted(minimum, maximum, Draw(seed, i))
  }

  /** Rejection sampling stops for every seed and range, after at most `limit`
      rejections, and at one draw only. */
  lemma SamplingStops(seed: UInt64, minimum: Int64, maximum: Int64) returns (n: nat)
    requires minimum < maximum
    ensures FirstAccepted(seed, minimum, maximum, n)
    ensures forall m: nat :: FirstAccepted(seed, minimum, maximum, m) ==> m == n
    ensures Width(minimum, maximum) == 0 ==> n == 0
    ensures Width(minimum, maximum) > 0 ==> n <= RejectLimit(Width(minimum, maximum))
  {
    hide Draw, RejectLimit;
    var width := Width(minimum, maximum);
    n := 0;
    while !Accepted(minimum, maximum, Draw(seed, n))
      invariant width == 0 ==> n == 0
      invariant width > 0 ==> n <= RejectLimit(width) && AllRejected(seed, n, RejectLimit(width))
      decreases (if width == 0 then 0 else RejectLimit(width)) - n
    {
      RejectionsBounded(seed, n + 1, RejectLimit(width));
      n := n + 1;
    }
  }

  /** The accepting iteration of the sampling loop. */
  lemma StopsHere(seed: UInt64, minimum: Int64, maximum: Int64, n: nat)
    requires minimum < maximum
    requires var width := Width(minimum, maximum);
             if width == 0 then n == 0
             else AllRejected(seed, n, RejectLimit(width)) && Draw(seed, n) >= RejectLimit(width)
    ensures FirstAccepted(seed, minimum, maximum, n)
  {
    hide Draw;
  }

  /** The generator in state `seed` gives `value` and is left in state `next`. */
  ghost predicate SampledInt(seed: UInt64, minimum: Int64, maximum: Int64, value: int, next: UInt64) {
    if minimum == maximum then
      value == minimum && next == seed
    else
      && minimum < maximum
      && exists n: nat :: FirstAccepted(seed, minimum, maximum, n)
           && value == Choice(minimum, maximum, Draw(seed, n))
           && next == StateAfter(seed, n + 1)
  }

  /** A seed and a range determine the sample and where it leaves the generator. */
  lemma SampledOnce(seed: UInt64, minimum: Int64, maximum: Int64, value: int, next: UInt64, other: int, after: UInt64)
    requires SampledInt(seed, minimum, maximum, value, next) && SampledInt(seed, minimum, maximum, other, after)
    ensures value == other && next == after
  {
    hide Choice, Draw, StateAfter, FirstAccepted;
    if minimum != maximum {
      var n := SamplingStops(seed, minimum, maximum);
    }
  }

  /** There is a sample for each seed and each range. */
  lemma SampleExists(seed: UInt64, minimum: Int64, maximum: Int64) returns (value: int, next: UInt64)
    requires minimum <= maximum
    ensures SampledInt(seed, minimum, maximum, value, next)
  {
    hide Choice, Draw, StateAfter, FirstAccepted;
    if minimum == maximum {
      value, next := minimum, seed;
    } else {
      var n := SamplingStops(seed, minimum, maximum);
      value, next := Choice(minimum, maximum, Draw(seed, n)), StateAfter(seed, n + 1);
    }
  }

  lemma SampledInRange(seed: UInt64, minimum: Int64, maximum: Int64, value: int, next: UInt64)
    requires SampledInt(seed, minimum, maximum, value, next)
    ensures minimum <= value <= maximum
  {
    hide Choice, Draw, StateAfter, FirstAccepted;
  }

  /** A known sample: seed 0 gives 2 in the range 1 to 6. */
  lemma FirstSampleOfZero()
    ensures SampledInt(0, 1, 6, 2, GOLDEN)
  {
    hide Draw, Choice, RejectLimit;
    FirstWordOfZero();
    assert StateAfter(0, 1) == GOLDEN;
    assert TWO_64 % 6 == 4;
    StopsHere(0, 1, 6, 0);
    assert Choice(1, 6, Draw(0, 0)) == 2;
  }

  class Session {
    var rngState: UInt64

    constructor (seed: UInt64)
      ensures rngState == seed
    {
      rngState := seed;
    }

    method RandomRaw() returns (raw: UInt64)
      modifies this
      ensures rngState == StateAfter(old(rngState), 1)
      ensures raw == Draw(old(rngState), 0)
    {
      StateStep(rngState, 0);
      rngState := ToUInt64(rngState + GOLDEN);
      var value := rngState;
      value := Scale(Fold(value, 30), MIX_1);
      value := Scale(Fold(value, 27), MIX_2);
      raw := Fold(value, 31);
    }

    /** Draws until a word reaches the limit. The loop ends because the draws
        it has rejected are distinct words below the limit. */
    method DrawAtLeast(limit: UInt64) returns (value: UInt64, ghost n: nat)
      modifies this
      ensures AllRejected(old(rngState), n, limit) && n <= limit
      ensures value == Draw(old(rngState), n) >= limit
      ensures rngState == StateAfter(old(rngState), n + 1)
    {
      hide Draw, StateAfter;
      ghost var seed := rngState;
      n := 0;
      StartOfDraws(seed);
      while true
        invariant n <= limit && AllRejected(seed, n, limit)
        invariant rngState == StateAfter(seed, n)
        decreases limit - n
      {
        DrawShifts(seed, n);
        value := RandomRaw();
        if value >= limit {
          return;
        }
        RejectedAgain(seed, n, limit);
        n := n + 1;
      }
    }

    method RandomInt(minimum: Int64, maximum: Int64) returns (r: Outcome<Int64>)
      modifies this
      ensures minimum > maximum ==> r == Raise(DomainError) && rngState == old(rngState)
      ensures minimum <= maximum ==>
                r.Value? && SampledInt(old(rngState), minimum, maximum, r.value, rngState)
    {
      hide Draw, StateAfter, Accepted, FirstAccepted, AllRejected;
      if minimum > maximum {
        return Raise(DomainError);
      }
      if minimum == maximum {
        return Value(minimum);
      }
      ghost var seed := rngState;
      var width := ToUInt64(ToUInt64(maximum) - ToUInt64(minimum) + 1);
      if width == 0 {
        var raw := RandomRaw();
        StopsHere(seed, minimum, maximum, 0);
        return Value(ToInt64(raw));
      }
      var value, n := DrawAtLeast(ToUInt64(-(width as int)) % width);
      StopsHere(seed, minimum, maximum, n);
      return Value(ToInt64(ToUInt64(ToUInt64(minimum) + value % width)));
    }
  }
}
