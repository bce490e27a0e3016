/** Facts about remainders that the solver does not find by itself. */
module Modulo {
  lemma LessByABase(p: nat, q: nat, base: nat)
    requires p < q
    ensures p * base + base <= q * base
  {
    assert (p + 1) * base == p * base + base;
    assert (p + 1) * base <= q * base;
  }

  lemma DivisionIsUnique(p: nat, d: nat, q: nat, e: nat, base: nat)
    requires p * base + d == q * base + e && d < base && e < base
    ensures p == q && d == e
  {
    if p < q {
      LessByABase(p, q, base);
    } else if q < p {
      LessByABase(q, p, base);
    }
  }

  /** A quotient and a remainder that fit are the quotient and the remainder. */
  lemma Division(c: nat, base: nat, q: nat, r: nat)
    requires c == q * base + r && r < base
    ensures c / base == q && c % base == r
  {
    var q', r' := c / base, c % base;
    assert c == q' * base + r';
    DivisionIsUnique(q', r', q, r, base);
  }

  lemma Distribute(p: nat, q: nat, base: nat)
    ensures (p + q) * base == p * base + q * base
  {
  }

  /** Moving on by no more than is left of the current round. */
  lemma Advance(a: nat, b: nat, n: nat)
    requires n > 0 && a % n + b <= n
    ensures (a + b) % n == (if a % n + b == n then 0 else a % n + b)
  {
    var q := a / n;
    assert a == q * n + a % n;
    if a % n + b == n {
      Distribute(q, 1, n);
      Division(a + b, n, q + 1, 0);
    } else {
      Division(a + b, n, q, a % n + b);
    }
  }

  lemma SumOfRemainder(n: nat, i: nat, m: nat)
    requires m > 0
    ensures (n % m + i) % m == (n + i) % m
  {
    var q, p, r := n / m, (n % m + i) / m, (n % m + i) % m;
    assert n == q * m + n % m && n % m + i == p * m + r;
    Distribute(q, p, m);
    Division(n + i, m, q + p, r);
  }

  /** Two digits above p, in bases lo and hi, as one digit in base lo * hi. */
  lemma Regroup(p: nat, b: nat, d: nat, lo: nat, hi: nat)
    requires b < hi && d < lo
    ensures (p * hi + b) * lo + d == p * (lo * hi) + (b * lo + d)
    ensures b * lo + d < lo * hi
  {
    LessByABase(b, hi, lo);
    Distribute(p * hi, b, lo);
    assert p * hi * lo == p * (lo * hi);
  }

  lemma ReadDigits(c: nat, p: nat, b: nat, d: nat, lo: nat, hi: nat)
    requires c == (p * hi + b) * lo + d && b < hi && d < lo
    ensures lo * hi > 0
    ensures c % (lo * hi) / lo == b && c % (lo * hi) % lo == d
  {
    Regroup(p, b, d, lo, hi);
    Division(c, lo * hi, p, b * lo + d);
    Division(b * lo + d, lo, b, d);
  }

  /** The two lowest digits of c, in bases lo and hi. */
  lemma LowDigits(c: nat, lo: nat, hi: nat)
    requires lo > 0 && hi > 0
    ensures lo * hi > 0
    ensures c / lo % hi == c % (lo * hi) / lo && c % lo == c % (lo * hi) % lo
  {
    var q, d := c / lo, c % lo;
    var p, b := q / hi, q % hi;
    assert p * hi + b == q;
    assert q * lo + d == c;
    ReadDigits(c, p, b, d, lo, hi);
  }
}
