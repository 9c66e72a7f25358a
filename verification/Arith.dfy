/** Quotients and remainders. */
module Arith {

  lemma DivMod(a: nat, n: nat)
    requires n > 0
    ensures a == a / n * n + a % n && 0 <= a % n < n
  {
  }

  /** Distinct multiples of `n` are `n` apart, or at least `2 * n`. */
  lemma {:induction false} MulStep(k: nat, q: nat, n: nat)
    requires n > 0 && k < q
    ensures k * n + n == q * n || k * n + 2 * n <= q * n
    decreases q
  {
    assert q * n == (q - 1) * n + n;
    if k < q - 1 {
      MulStep(k, q - 1, n);
    }
  }

  /** Multiples of `n` compare as their factors do. */
  lemma MulCancel(a: nat, b: nat, n: nat)
    requires n > 0 && a * n < b * n
    ensures a < b && a * n + n <= b * n
  {
    if a < b {
      MulStep(a, b, n);
    } else if b < a {
      MulStep(b, a, n);
    }
  }

  lemma {:induction false} MulMonotone(a: nat, b: nat, n: nat)
    requires a <= b
    ensures 0 <= a * n <= b * n
    decreases b
  {
    if a < b {
      MulMonotone(a, b - 1, n);
      assert b * n == (b - 1) * n + n;
    } else if b > 0 {
      MulMonotone(a - 1, b - 1, n);
      assert b * n == (b - 1) * n + n;
    }
  }
}
