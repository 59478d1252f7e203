/** Facts about integer multiplication, division and remainder by a positive
    divisor that the solver does not find on its own. */
module Arith {

  lemma MulBounds(d: int, n: int)
    requires n > 0
    ensures d >= 1 ==> d * n >= n
    ensures d <= -1 ==> d * n <= -n
    decreases if d >= 0 then d else -d
  {
    if d >= 1 {
      assert d * n == (d - 1) * n + n;
      if d > 1 { MulBounds(d - 1, n); }
    } else if d <= -1 {
      assert d * n == (d + 1) * n - n;
      if d < -1 { MulBounds(d + 1, n); }
    }
  }

  /** Quotient and remainder are the unique q, r with x == q * n + r and 0 <= r < n. */
  lemma DivModUnique(x: int, n: int, q: int, r: int)
    requires n > 0 && 0 <= r < n && x == q * n + r
    ensures x % n == r && x / n == q
  {
    var d := x / n - q;
    assert x == (x / n) * n + x % n;
    assert d * n == (x / n) * n - q * n;
    assert d * n == r - x % n;
    MulBounds(d, n);
  }

  /** Adding the divisor does not change the remainder. */
  lemma ModShift(x: int, n: int)
    requires n > 0
    ensures (x + n) % n == x % n
  {
    DivModUnique(x + n, n, x / n + 1, x % n);
  }
}
