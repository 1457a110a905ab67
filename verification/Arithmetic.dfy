/** Integer facts that several modules share. */
module Arithmetic {
  function Min(a: int, b: int): int { if a < b then a else b }

  function Max(a: int, b: int): int { if a < b then b else a }

  lemma ProductMonotone(k: int, a: int, b: int)
    requires k >= 0 && a <= b
    ensures k * a <= k * b
  {
  }

  lemma DivisionIsUnique(a: int, n: int, q: int, r: int)
    requires n > 0 && a == n * q + r && 0 <= r < n
    ensures a / n == q && a % n == r
  {
    var d := q - a / n;
    assert n * d == a % n - r;
    if d > 0 {
      ProductMonotone(n, 1, d);
    } else if d < 0 {
      ProductMonotone(n, d, -1);
    }
  }
}
