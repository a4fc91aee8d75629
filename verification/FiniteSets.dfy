/** Counting arguments about finite sets of integers. */
module FiniteSets {
  import opened Arithmetic

  ghost function Interval(lo: int, hi: int): (s: set<int>)
    ensures forall i :: i in s <==> lo <= i < hi
    ensures lo <= hi ==> |s| == hi - lo
    decreases hi - lo
  {
    if hi <= lo then {} else Interval(lo, hi - 1) + {hi - 1}
  }

  lemma {:induction false} SubsetSize<T>(a: set<T>, b: set<T>)
    requires a <= b
    ensures |a| <= |b|
  {
    if a != {} {
      var x: T :| x in a;
      SubsetSize(a - {x}, b - {x});
    }
  }

  /** A one-to-one map of a onto b shows that they have the same size. */
  lemma {:induction false} BijectionSize<S, T>(a: set<S>, b: set<T>, f: S -> T)
    requires forall x :: x in a ==> f(x) in b
    requires forall x, y :: x in a && y in a && f(x) == f(y) ==> x == y
    requires forall z :: z in b ==> exists x :: x in a && f(x) == z
    ensures |a| == |b|
  {
    if x :| x in a {
      forall z | z in b - {f(x)}
        ensures exists y :: y in a - {x} && f(y) == z
      {
        var y :| y in a && f(y) == z;
        assert y in a - {x};
      }
      BijectionSize(a - {x}, b - {f(x)}, f);
    } else {
      assert a == {} && b == {};
    }
  }

  /** At most n numbers below n differ from one another. */
  lemma PigeonHole(count: nat, bound: nat, f: int -> int)
    requires forall i :: 0 <= i < count ==> 0 <= f(i) < bound
    requires forall i, j :: 0 <= i < count && 0 <= j < count && f(i) == f(j) ==> i == j
    ensures count <= bound
  {
    var image := set i | 0 <= i < count :: f(i);
    BijectionSize(Interval(0, count), image, f);
    SubsetSize(image, Interval(0, bound));
  }

  ghost function Residues(lo: int, hi: int, modulus: int, residue: int): set<int>
    requires modulus > 0
  {
    set i | lo <= i < hi && i % modulus == residue
  }

  /** Every residue occurs equally often in a whole number of periods. */
  lemma {:induction false} ResiduesSize(lo: int, periods: nat, modulus: int, residue: int)
    requires 0 <= residue < modulus
    ensures |Residues(lo, lo + periods * modulus, modulus, residue)| == periods
  {
    if periods == 0 {
      assert Residues(lo, lo + periods * modulus, modulus, residue) == {};
    } else {
      var last := lo + (periods - 1) * modulus;
      assert last + modulus == lo + periods * modulus;
      ResiduesSize(lo, periods - 1, modulus, residue);
      var x := ResidueInPeriod(last, modulus, residue);
      MultiplyMonotone(0, periods - 1, modulus);
      ResiduesExtend(lo, last, modulus, residue, x);
      assert x !in Residues(lo, last, modulus, residue);
    }
  }

  lemma ResiduesExtend(lo: int, last: int, modulus: int, residue: int, x: int)
    requires 0 <= residue < modulus && lo <= last <= x < last + modulus && x % modulus == residue
    ensures Residues(lo, last + modulus, modulus, residue) == Residues(lo, last, modulus, residue) + {x}
  {
    forall i | last <= i < last + modulus && i % modulus == residue
      ensures i == x
    {
      SameResidue(i, x, modulus);
    }
  }

  lemma ResidueInPeriod(start: int, modulus: int, residue: int) returns (x: int)
    requires 0 <= residue < modulus
    ensures start <= x < start + modulus && x % modulus == residue
  {
    var q := (residue - start) / modulus;
    x := start + (residue - start) % modulus;
    assert x == residue + (-q) * modulus;
    ModuloUnique(x, modulus, residue, -q);
  }
}
