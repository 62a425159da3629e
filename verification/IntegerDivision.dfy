/** Integer division as the source language has it: it rounds towards zero. */
module IntegerDivision {

  function Truncated(n: int, d: int): int
    requires d > 0
  {
    if n >= 0 then n / d else -(-n / d)
  }

  /** q is n divided by d, rounded towards zero. */
  ghost predicate IsQuotient(n: int, d: int, q: int) {
    if n >= 0 then d * q <= n < d * q + d else d * q - d < n <= d * q
  }

  lemma TruncatedIsQuotient(n: int, d: int)
    requires d > 0
    ensures IsQuotient(n, d, Truncated(n, d))
  {
    if n < 0 {
      assert d * Truncated(n, d) == -(d * (-n / d));
    }
  }

  lemma SameSign(n: int, d: int, q: int)
    requires d > 0 && IsQuotient(n, d, q)
    ensures if n >= 0 then q >= 0 else q <= 0
  {
    Cancel(d, -1, q);
    Cancel(d, q, 0);
  }

  lemma QuotientBelow(n: nat, d: int, q: int, bound: int)
    requires d > 0 && IsQuotient(n, d, q) && n < d * bound
    ensures q < bound
  {
    Cancel(d, q, bound - 1);
  }

  lemma Product(d: int, e: int, q: int)
    ensures d * (e * q) == (d * e) * q
    ensures d * (e * q + e) == d * (e * q) + d * e
  {
  }

  lemma QuotientTwiceUp(n: nat, d: int, e: int, p: nat, q: int)
    requires d > 0 && e > 0 && d * p <= n < d * p + d && e * q <= p < e * q + e
    ensures (d * e) * q <= n < (d * e) * q + d * e
  {
    var low := e * q;
    Product(d, e, q);
    Scale(d, low, p);
    Scale(d, p + 1, low + e);
    assert d * (p + 1) == d * p + d;
  }

  lemma Mirrored(n: int, d: int, q: int)
    requires d > 0 && n != 0
    ensures IsQuotient(n, d, q) <==> IsQuotient(-n, d, -q)
  {
    assert d * -q == -(d * q);
  }

  lemma NoQuotient(d: int, e: int, q: int)
    requires d > 0 && e > 0 && IsQuotient(0, e, q)
    ensures q == 0 && d * e > 0
  {
    Cancel(e, q, 0);
    Cancel(e, -1, q);
  }

  /** Dividing twice is dividing once by the product. */
  lemma QuotientTwice(n: int, d: int, e: int, p: int, q: int)
    requires d > 0 && e > 0 && IsQuotient(n, d, p) && IsQuotient(p, e, q)
    ensures d * e > 0 && IsQuotient(n, d * e, q)
  {
    NoQuotient(d, e, 0);
    SameSign(n, d, p);
    if n >= 0 {
      QuotientTwiceUp(n, d, e, p, q);
    } else {
      Mirrored(n, d, p);
      if p == 0 {
        NoQuotient(d, e, q);
        QuotientTwiceUp(-n, d, e, 0, 0);
      } else {
        Mirrored(p, e, q);
        QuotientTwiceUp(-n, d, e, -p, -q);
      }
      Mirrored(n, d * e, q);
    }
  }

  lemma Scale(d: int, a: int, b: int)
    requires d > 0 && a <= b
    ensures d * a <= d * b
  {
  }

  lemma Times(n: nat, a: int, b: int)
    requires a <= b
    ensures n * a <= n * b && (n + 1) * a == n * a + a && (n + 1) * b == n * b + b
  {
    assert n * (b - a) >= 0;
  }

  lemma Cancel(n: int, a: int, b: int)
    requires n > 0
    ensures n * a < n * b + n ==> a <= b
  {
    if a > b {
      Times(n, b + 1, a);
    }
  }

  lemma DivideBetween(sum: int, n: int, low: int, high: int)
    requires n > 0 && n * low <= sum <= n * high
    ensures low <= sum / n <= high
  {
    Cancel(n, low, sum / n);
    Cancel(n, sum / n, high);
  }

  /** What lies between two multiples of the divisor is divided to between the factors. */
  lemma TruncatedBetween(sum: int, n: nat, low: int, high: int)
    requires n > 0 && n * low <= sum <= n * high
    ensures low <= Truncated(sum, n) <= high
  {
    if sum >= 0 {
      DivideBetween(sum, n, low, high);
    } else {
      assert n * -high == -(n * high) && n * -low == -(n * low);
      DivideBetween(-sum, n, -high, -low);
    }
  }
}
