/** The smaller and the larger of two numbers, remainders and alignment. */
module Arithmetic {
  function Min(a: nat, b: nat): nat { if a < b then a else b }

  function Max(a: int, b: int): int { if a < b then b else a }

  /** `x` is a multiple of the alignment `a`. */
  ghost predicate Aligned(x: int, a: nat) { exists k: int {:trigger k * a} :: x == k * a }

  /** `RT_ALIGN` for a power-of-two alignment: the least multiple of `a` that is at least `n`. */
  function AlignUp(n: nat, a: nat): (r: nat)
    requires a > 0
    ensures n <= r < n + a && Aligned(r, a)
  {
    (n + a - 1) / a * a
  }

  /** `RT_ALIGN_DOWN` for a power-of-two alignment. */
  function AlignDown(n: nat, a: nat): (r: nat)
    requires a > 0
  {
    n / a * a
  }

  lemma DownBounds(n: nat, a: nat)
    requires a > 0
    ensures AlignDown(n, a) <= n < AlignDown(n, a) + a
  {
  }

  lemma AlignedSum(x: int, y: int, a: nat)
    requires Aligned(x, a) && Aligned(y, a)
    ensures Aligned(x + y, a) && Aligned(x - y, a)
  {
    var k :| x == k * a;
    var l :| y == l * a;
    assert x + y == (k + l) * a && x - y == (k - l) * a;
  }

  lemma AlignUpZero(n: nat, a: nat)
    requires a > 0
    ensures AlignUp(n, a) == 0 <==> n == 0
  {
    if n == 0 {
      assert (a - 1) / a == 0;
    }
  }

  lemma MulLe(x: int, y: int, a: nat)
    requires x <= y
    ensures x * a <= y * a
  {
  }

  lemma AlignUpIdempotent(n: nat, a: nat)
    requires a > 0 && Aligned(n, a)
    ensures AlignUp(n, a) == n
  {
    var k :| n == k * a;
    var q := (n + a - 1) / a;
    assert q * a <= n + a - 1 < (q + 1) * a;
    if q < k {
      MulLe(q + 1, k, a);
    } else if q > k {
      MulLe(k + 1, q, a);
    }
  }

  /** Quotient and remainder are determined by their bounds. */
  lemma DivModIs(x: int, q: int, r: int, m: nat)
    requires x == q * m + r && 0 <= r < m
    ensures x / m == q && x % m == r
  {
    var k := x / m;
    assert x == k * m + x % m;
    if k < q {
      MulLe(k + 1, q, m);
    } else if q < k {
      MulLe(q + 1, k, m);
    }
  }
}
