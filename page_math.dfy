/** `Math.ceil(total / pageSize)`, the page count the list hooks derive. */
module PageMath {
  import Arith

  /** A page count: a whole number, or Infinity/NaN when the page size is zero. */
  datatype PageCount = Finite(pages: int) | NotFinite

  /** The least integer not below a / b. */
  function CeilDiv(a: int, b: int): int
    requires b != 0
    decreases if b > 0 then 0 else 1
  {
    if b > 0 then (a + b - 1) / b else CeilDiv(-a, -b)
  }

  /** The ceiling lies within one divisor above the quotient. */
  lemma CeilDivBounds(a: int, b: int)
    requires b > 0
    ensures (CeilDiv(a, b) - 1) * b < a <= CeilDiv(a, b) * b
  {
    var q, r := (a + b - 1) / b, (a + b - 1) % b;
    assert a + b - 1 == q * b + r;
    assert (q - 1) * b == q * b - b;
  }

  /** `Math.ceil(total / pageSize)`. */
  function TotalPages(total: int, pageSize: int): (r: PageCount)
    ensures r.NotFinite? <==> pageSize == 0
  {
    if pageSize == 0 then NotFinite else Finite(CeilDiv(total, pageSize))
  }

  /** For a positive page size the page count is the least number of pages
      that holds `total` items: zero items give zero pages, and otherwise the
      last page holds between one and pageSize items. */
  lemma TotalPagesIsLeastCover(total: int, pageSize: int)
    requires total >= 0 && pageSize > 0
    ensures var n := TotalPages(total, pageSize).pages;
      && n >= 0
      && (total == 0 <==> n == 0)
      && (n - 1) * pageSize < total <= n * pageSize
      && forall k :: k * pageSize >= total ==> k >= n
  {
    var n := TotalPages(total, pageSize).pages;
    CeilDivBounds(total, pageSize);
    if n < 0 {
      Arith.MulBounds(n, pageSize);
    }
    if total == 0 && n != 0 {
      Arith.MulBounds(n - 1, pageSize);
    }
    forall k | k * pageSize >= total ensures k >= n {
      if k < n {
        Arith.MulBounds(n - 1 - k, pageSize);
      }
    }
  }
}
