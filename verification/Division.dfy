/** Quotients and remainders by a variable divisor, one fact at a time. */
module Division {

  /** A larger quotient is larger by a divisor at least. */
  lemma Multiples(d: nat, q: nat, q': nat)
    requires q < q'
    ensures d * q + d <= d * q'
  {
    var more := q' - q - 1;
    assert d * q' == d * q + d + d * more by { assert q' == q + 1 + more; }
  }

  lemma DivisionIsUnique(n: nat, d: nat, q: nat, r: nat)
    requires d > 0 && n == d * q + r && r < d
    ensures n / d == q && n % d == r
  {
    Divide(n, d);
    if q < n / d { Multiples(d, q, n / d); }
    if n / d < q { Multiples(d, n / d, q); }
  }

  lemma Divide(n: nat, d: nat)
    requires d > 0
    ensures n == d * (n / d) + n % d && n % d < d
  {}

  lemma Scaled(c: nat, p: nat, q: nat)
    ensures (c * p) * q == c * (p * q)
  {}
}
