// Integer facts the verifier does not find on its own: remainders and
// quotients by a variable divisor.

module Arith {
  /** A positive multiple of `n` is at least `n`. */
  lemma {:induction false} MulAtLeast(a: int, n: int)
    requires a >= 1 && n > 0
    ensures a * n >= n
  {
    if a > 1 {
      MulAtLeast(a - 1, n);
      assert a * n == (a - 1) * n + n;
    }
  }

  /** The remainder is the only `m` in `[0, n)` that differs from `x` by a
      multiple of `n`. */
  lemma ModUnique(x: int, n: int, d: int, m: int)
    requires n > 0 && 0 <= m < n && x == d * n + m
    ensures x % n == m
  {
    var e := d - x / n;
    assert x == (x / n) * n + x % n;
    assert e * n == x % n - m;
    if e >= 1 {
      MulAtLeast(e, n);
    }
  }

  /** One step further round a cycle of length `n`. */
  lemma ModSucc(x: int, n: int)
    requires x >= 0 && n > 0
    ensures (x + 1) % n == if x % n + 1 < n then x % n + 1 else 0
  {
    var q, r := x / n, x % n;
    assert x == q * n + r;
    if r + 1 < n {
      ModUnique(x + 1, n, q, r + 1);
    } else {
      assert x + 1 == (q + 1) * n + 0;
      ModUnique(x + 1, n, q + 1, 0);
    }
  }

  /** Division by a positive number keeps order. */
  lemma DivMonotone(a: int, b: int, d: int)
    requires a <= b && d > 0
    ensures a / d <= b / d
  {
    var q1, q2 := a / d, b / d;
    assert a == q1 * d + a % d;
    assert b == q2 * d + b % d;
    if q1 > q2 {
      MulAtLeast(q1 - q2, d);
    }
  }
}
