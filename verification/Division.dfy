/** Division facts with a variable divisor, which the solver does not find. */
module Division {

  lemma AtLeastOnce(a: int, d: int)
    requires a >= 1 && d >= 0
    ensures a * d >= d
  {
    assert a * d == (a - 1) * d + d;
  }

  lemma Scaled(x: int, y: int, d: int)
    requires x <= y && d >= 0
    ensures x * d <= y * d
  {
    assert (y - x) * d >= 0;
  }

  /** Quotient and remainder are unique. */
  lemma Unique(k: int, m: int, q: int, r: int, d: int)
    requires k * d + m == q * d + r && 0 <= m < d && 0 <= r < d
    ensures k == q && m == r
  {
    if k > q {
      AtLeastOnce(k - q, d);
    } else if k < q {
      AtLeastOnce(q - k, d);
    }
  }

  lemma Quotient(q: int, d: int, r: int)
    requires 0 <= r < d
    ensures (q * d + r) / d == q && (q * d + r) % d == r
  {
    var x := q * d + r;
    Unique(x / d, x % d, q, r, d);
  }

  /** The multiple of `d` just below `x`. */
  lemma Bounds(x: int, d: int)
    requires d > 0
    ensures x / d * d <= x < x / d * d + d
    ensures x / d * d % d == 0
  {
    Quotient(x / d, d, 0);
  }

  lemma NonNegative(x: nat, d: nat)
    requires d > 0
    ensures x / d * d >= 0
  {
    if x / d >= 1 {
      AtLeastOnce(x / d, d);
    }
  }
}
