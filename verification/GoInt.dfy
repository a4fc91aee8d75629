/** Go's fixed-width integers on unbounded integers: the two's complement
    conversions, wrapping arithmetic and truncating division that the
    evaluator's checked operations are built from. */
module GoInt {

  const TWO_63: int := 0x8000_0000_0000_0000
  const TWO_64: int := 0x1_0000_0000_0000_0000
  const MIN_INT64: int := -TWO_63
  const MAX_INT64: int := TWO_63 - 1

  type Int64 = i: int | MIN_INT64 <= i <= MAX_INT64
  type UInt64 = u: int | 0 <= u < TWO_64

  predicate FitsInt64(i: int) {
    MIN_INT64 <= i <= MAX_INT64
  }

  /** The conversion uint64(i), and what a uint64 register keeps of i. */
  function ToUInt64(i: int): UInt64 {
    i % TWO_64
  }

  /** The conversion int64(u) of the 64-bit pattern u. */
  function ToInt64(u: UInt64): (i: Int64)
    ensures ToUInt64(i) == u
  {
    if u < TWO_63 then u else u - TWO_64
  }

  /** What an int64 register keeps of i: the one signed number congruent to it. */
  function Wrap(i: int): (w: Int64)
    ensures ToUInt64(w) == ToUInt64(i)
    ensures FitsInt64(i) ==> w == i
  {
    ToInt64(ToUInt64(i))
  }

  /** Go's `/` on int64: it truncates toward zero, and MinInt64 / -1 wraps. */
  function Quotient(a: Int64, b: Int64): (q: Int64)
    requires b != 0
  {
    var magnitude := Magnitude(a) / Magnitude(b);
    Wrap(if (a < 0) == (b < 0) then magnitude else -magnitude)
  }

  function Magnitude(i: int): (m: nat)
    ensures m == i || m == -i
  {
    if i < 0 then -i else i
  }

  /** Two registers that agree modulo 2^64 hold the same number. */
  lemma WrapUnique(i: int, w: Int64, k: int)
    requires i == w + k * TWO_64
    ensures Wrap(i) == w
  {
  }
}
