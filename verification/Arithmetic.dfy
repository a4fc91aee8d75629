/** Facts about multiplication and Euclidean division by a variable. */
module Arithmetic {

  lemma DivisionBounds(x: nat, n: nat)
    requires n > 0
    ensures (x / n) * n <= x < (x / n) * n + n
    ensures x / n <= x && (n >= 2 ==> 2 * (x / n) <= x)
  {
    var q := x / n;
    assert x == q * n + x % n;
    MultiplyMonotone(1, n, q);
    if n >= 2 {
      MultiplyMonotone(2, n, q);
    }
  }

  lemma MultiplyMonotone(a: int, b: int, c: nat)
    requires a <= b
    ensures a * c <= b * c
  {
  }

  lemma DivisionUnique(x: nat, n: nat, q: nat)
    requires q * n <= x < q * n + n
    ensures x / n == q
  {
    var p := x / n;
    DivisionBounds(x, n);
    if p < q {
      MultiplyMonotone(p + 1, q, n);
    } else if q < p {
      MultiplyMonotone(q + 1, p, n);
    }
  }

  lemma ModuloUnique(n: int, m: int, r: int, q: int)
    requires 0 <= r < m && n == r + q * m
    ensures n % m == r
  {
    var p := n / m;
    assert n == p * m + n % m;
    assert (p - q) * m == r - n % m;
    if p > q {
      MultiplyMonotone(1, p - q, m);
    } else if p < q {
      MultiplyMonotone(p - q, -1, m);
    }
  }

  lemma ShiftModulo(n: int, k: int, m: int)
    requires m > 0
    ensures (n + k * m) % m == n % m
  {
    assert n == n % m + (n / m) * m;
    assert n + k * m == n % m + (n / m + k) * m;
    ModuloUnique(n + k * m, m, n % m, n / m + k);
  }

  lemma QuotientAtMost(x: nat, n: nat, q: nat)
    requires n > 0 && x <= q * n
    ensures x / n <= q
  {
    DivisionBounds(x, n);
    if x / n >= q + 1 {
      MultiplyMonotone(q + 1, x / n, n);
    }
  }

  lemma SameResidue(i: int, j: int, modulus: int)
    requires modulus > 0 && i % modulus == j % modulus && -modulus < i - j < modulus
    ensures i == j
  {
    ModuloUnique(i, modulus, i % modulus, i / modulus);
    var p := i / modulus - j / modulus;
    assert i - j == p * modulus;
    if p >= 1 {
      MultiplyMonotone(1, p, modulus);
    } else if p <= -1 {
      MultiplyMonotone(p, -1, modulus);
    }
  }
}
