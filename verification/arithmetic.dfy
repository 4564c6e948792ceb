/** Division and remainder facts the solver does not find unaided. */
module Arithmetic {

  lemma MulAtLeast(x: int, m: int)
    requires x >= 1 && m > 0
    ensures x * m >= m
  {
    assert x * m == (x - 1) * m + m;
  }

  lemma MulMonotone(a: int, b: int, m: int)
    requires a <= b && m >= 0
    ensures a * m <= b * m
  {
    assert b * m - a * m == (b - a) * m;
  }

  /** Quotient and remainder are determined by any decomposition
      a = q*m + r with 0 <= r < m. */
  lemma DivModUnique(a: int, m: int, q: int, r: int)
    requires m > 0 && 0 <= r < m && a == q * m + r
    ensures a / m == q && a % m == r
  {
    var q0, r0 := a / m, a % m;
    assert a == q0 * m + r0;
    assert (q - q0) * m == r0 - r;
    if q > q0 {
      MulAtLeast(q - q0, m);
    } else if q < q0 {
      MulAtLeast(q0 - q, m);
    }
  }

  lemma DivModOfRowCol(i: nat, j: nat, n: nat)
    requires j < n
    ensures (i * n + j) / n == i && (i * n + j) % n == j
  {
    DivModUnique(i * n + j, n, i, j);
  }

  lemma RowColBound(i: nat, j: nat, rows: nat, n: nat)
    requires i < rows && j < n
    ensures i * n + j < rows * n
    ensures j * rows + i < n * rows
  {
    MulMonotone(i + 1, rows, n);
    MulMonotone(j + 1, n, rows);
    assert (i + 1) * n == i * n + n;
    assert (j + 1) * rows == j * rows + rows;
  }

  lemma ModAddPeriod(a: int, m: int)
    requires m > 0
    ensures (a + m) % m == a % m
  {
    DivModUnique(a + m, m, a / m + 1, a % m);
  }

  lemma ModNext(a: int, m: int)
    requires m > 0
    ensures (a + 1) % m == (if a % m + 1 == m then 0 else a % m + 1)
  {
    if a % m + 1 == m {
      DivModUnique(a + 1, m, a / m + 1, 0);
    } else {
      DivModUnique(a + 1, m, a / m, a % m + 1);
    }
  }

  /** Taking the low digit off, reducing the rest and putting the digit
      back reduces by the product of the bases. */
  lemma ModOfQuotient(u: int, b: int, p: int)
    requires b > 0 && p > 0
    ensures ((u / b) % p) * b + u % b == u % (b * p)
  {
    var q, r := u / b, u % b;
    var a, c := q / p, q % p;
    assert (a * p + c) * b == a * (b * p) + c * b;
    MulMonotone(c, p - 1, b);
    DivModUnique(u, b * p, a, c * b + r);
  }

  lemma ModSmall(a: int, m: int)
    requires 0 <= a < m
    ensures a % m == a && a / m == 0
  {
    DivModUnique(a, m, 0, a);
  }

  lemma ModDistinct(a: nat, b: nat, m: nat)
    requires m > 0 && a < b < a + m
    ensures a % m != b % m
  {
    if a % m == b % m {
      assert a == (a / m) * m + a % m;
      assert b == (b / m) * m + b % m;
      assert (b / m - a / m) * m == b - a;
      var d := b / m - a / m;
      if d >= 1 {
        MulAtLeast(d, m);
      } else {
        MulMonotone(d, 0, m);
      }
    }
  }

  /** a*b/b == a for positive b. */
  lemma MulDivCancel(a: int, b: int)
    requires b > 0
    ensures (a * b) / b == a && (a * b) % b == 0
  {
    DivModUnique(a * b, b, a, 0);
  }

  /** floor(x / n) * n <= x. */
  lemma DivMulLe(x: nat, n: nat)
    requires n > 0
    ensures (x / n) * n <= x
  {
    assert x == (x / n) * n + x % n;
  }

  lemma DivBelow(k: nat, rows: nat, n: nat)
    requires n > 0 && k < rows * n
    ensures k / n < rows
  {
    DivMulLe(k, n);
    if k / n >= rows {
      MulMonotone(rows, k / n, n);
    }
  }

  /** A position below rows * n splits into row k div n and column k mod n. */
  lemma RowColOf(k: nat, n: nat, rows: nat)
    requires n > 0 && k < rows * n
    ensures k / n < rows && k % n < n
    ensures k == (k / n) * n + k % n
  {
    DivBelow(k, rows, n);
  }

  /** The position (k mod n) * rows + k div n of a rows-by-n transpose. */
  function Transposed(k: nat, n: nat, rows: nat): (src: nat)
    requires n > 0 && k < rows * n
    ensures src < n * rows
  {
    DivBelow(k, rows, n);
    RowColBound(k / n, k % n, rows, n);
    (k % n) * rows + k / n
  }

  /** Transposition maps row-major position i*n+j to j*rows+i. */
  lemma TransposedAt(i: nat, j: nat, n: nat, rows: nat)
    requires i < rows && j < n
    ensures i * n + j < rows * n
    ensures Transposed(i * n + j, n, rows) == j * rows + i
  {
    RowColBound(i, j, rows, n);
    DivModOfRowCol(i, j, n);
  }

  lemma ModAtMost(x: int, m: int)
    requires x >= 0 && m > 0
    ensures 0 <= x % m <= x
  {
    if x < m {
      ModSmall(x, m);
    }
  }

  /** Quotient and remainder order lexicographically with the dividend. */
  lemma DivModOrder(i: nat, j: nat, c: nat)
    requires c > 0 && i < j
    ensures i / c <= j / c
    ensures i / c == j / c ==> i % c < j % c
  {
    var qi, qj := i / c, j / c;
    if qi > qj {
      MulMonotone(qj + 1, qi, c);
    }
  }

  /** A position inside an earlier period comes before any position of a
      later one. */
  lemma EarlierPeriodBefore(a: nat, b: nat, qi: nat, qj: nat, p: nat)
    requires a < p && qi < qj
    ensures a + qi * p < b + qj * p
  {
    MulMonotone(qi + 1, qj, p);
  }

  /** One step of a counter that wraps at n. */
  lemma WrapStep(x: nat, n: nat)
    requires 0 < x <= n
    ensures x / n == (if x == n then 1 else 0)
    ensures x % n == (if x == n then 0 else x)
  {
    if x == n {
      DivModUnique(x, n, 1, 0);
    } else {
      ModSmall(x, n);
    }
  }

  /** k * n <= q gives k <= q / n. */
  lemma LeDivOfMulLe(k: nat, n: nat, q: nat)
    requires n > 0 && k * n <= q
    ensures k <= q / n
  {
    assert q == (q / n) * n + q % n;
    if k > q / n {
      MulMonotone(q / n + 1, k, n);
    }
  }

  lemma DivMonotone(a: nat, b: nat, n: nat)
    requires n > 0 && a <= b
    ensures a / n <= b / n
  {
    DivMulLe(a, n);
    LeDivOfMulLe(a / n, n, b);
  }
}
