/** Small shared vocabulary. */
module Prelude {

  /** Python's `x | None`. */
  datatype Option<+T> = None | Some(value: T)

  function Max(a: int, b: int): int { if a < b then b else a }

  function Min(a: int, b: int): int { if a < b then a else b }

  lemma MulBounds(n: int, k: int)
    requires n > 0
    ensures k >= 1 ==> n * k >= n
    ensures k <= -1 ==> n * k + n <= 0
  {
    if k >= 1 {
      assert n * (k - 1) >= 0;
    } else if k <= -1 {
      assert n * (-1 - k) >= 0;
    }
  }

  /** The quotient is the one multiple whose remainder fits. */
  lemma QuotientUnique(x: int, n: int, q: int)
    requires n > 0 && 0 <= x - n * q < n
    ensures x / n == q && x % n == x - n * q
  {
    MulBounds(n, x / n - q);
    assert n * (x / n - q) == n * (x / n) - n * q;
  }
}
