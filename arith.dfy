/** Integer and real arithmetic facts the layout and the scheduler rely on. */
module Arith {
  /** Integer division by a positive number is monotone. */
  lemma DivMonotone(a: nat, b: nat, n: nat)
    requires n > 0 && a <= b
    ensures a / n <= b / n
  {
    var qa, qb := a / n, b / n;
    assert qa * n <= a;
    assert b < qb * n + n == (qb + 1) * n;
    MulCancel(qa, qb + 1, n);
  }

  /** Multiplying by a positive number preserves strict order. */
  lemma MulCancel(x: int, y: int, n: int)
    requires n > 0 && x * n < y * n
    ensures x < y
  {
  }

  /** Scaling by a non-negative factor and dividing by a positive one preserves order. */
  lemma ScaleMonotone(a: real, b: real, c: real, d: real)
    requires a <= b && c >= 0.0 && d > 0.0
    ensures a * c / d <= b * c / d
  {
    assert (b - a) * c >= 0.0;
    assert b * c - a * c == (b - a) * c;
  }

  /** Multiplying by a positive number preserves weak order, in both directions. */
  lemma MulLe(x: int, y: int, n: int)
    requires n > 0
    ensures x <= y <==> x * n <= y * n
  {
    if x * n <= y * n && x > y {
      MulCancel(y, x, n);
    }
    if x <= y {
      assert y * n - x * n == (y - x) * n;
    }
  }

  /** A multiple of `n`, divided by `n`, gives back its factor and leaves no remainder. */
  lemma MulDivExact(k: int, n: int)
    requires n > 0
    ensures (k * n) / n == k && (k * n) % n == 0
  {
    var q, r := (k * n) / n, (k * n) % n;
    assert (k - q) * n == r;
    MulCancel(k - q, 1, n);
    MulCancel(-1, k - q, n);
  }

  /** A number with no remainder is its quotient times the divisor. */
  lemma ModZero(a: int, n: int)
    requires n > 0 && a % n == 0
    ensures a == (a / n) * n
  {
  }

  /** The difference of two multiples is a multiple. */
  lemma MultipleDifference(a: int, b: int, n: int)
    requires n > 0 && a % n == 0 && b % n == 0
    ensures (a - b) % n == 0 && (a - b) / n == a / n - b / n
  {
    ModZero(a, n);
    ModZero(b, n);
    assert a - b == (a / n - b / n) * n;
    MulDivExact(a / n - b / n, n);
  }

  /** Multiplication distributes over addition. */
  lemma AddMultiples(a: int, b: int, n: int)
    ensures a * n + b * n == (a + b) * n
  {
  }
}
