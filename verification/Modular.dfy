/** The modular arithmetic behind the periods of the fake generators. */
module Modular {

  lemma MultipleGrows(m: int, t: int)
    requires m > 0
    ensures t >= 1 ==> m * t >= m
    ensures t <= -1 ==> m * t <= -m
  {
  }

  /** Adding a multiple keeps the remainder. */
  lemma AddMultiple(a: int, m: int, k: int)
    requires m > 0
    ensures (a + m * k) % m == a % m
  {
    var r, q := a % m, a / m;
    var r', q' := (a + m * k) % m, (a + m * k) / m;
    assert m * q + r + m * k == m * q' + r';
    assert r - r' == m * q' - m * q - m * k == m * (q' - q - k);
    MultipleGrows(m, q' - q - k);
  }

  lemma RemainderIs(a: int, m: int, q: int, r: int)
    requires 0 <= r < m && a == r + m * q
    ensures a % m == r
  {
    AddMultiple(r, m, q);
  }

  lemma MultipleMod(m: int, k: int)
    requires m > 0
    ensures (m * k) % m == 0
  {
    AddMultiple(0, m, k);
  }

  /** Equal remainders: the difference is a multiple. */
  lemma SameRemainder(a: int, b: int, m: int)
    requires m > 0 && a % m == b % m
    ensures (b - a) % m == 0
  {
    var p, q := a / m, b / m;
    assert b - a == m * q - m * p == m * (q - p);
    MultipleMod(m, q - p);
  }

  /** A multiple of two coprime numbers is a multiple of their product (`p*u - q*v == 1`). */
  lemma CoprimeProduct(d: int, p: int, q: int, u: int, v: int)
    requires p > 0 && q > 0 && p * u - q * v == 1
    requires d % p == 0 && d % q == 0
    ensures p * q > 0 && d % (p * q) == 0
  {
    var a, b := d / p, d / q;
    var pq := p * q;
    assert d == p * a && d == q * b;
    calc {
      d;
      d * (p * u - q * v);
      d * (p * u) - d * (q * v);
      (q * b) * (p * u) - (p * a) * (q * v);
      { Shuffle(q, b, p, u); Shuffle(p, a, q, v); }
      (p * q) * (b * u) - (p * q) * (a * v);
      { assert pq * (b * u) - pq * (a * v) == pq * (b * u - a * v); }
      (p * q) * (b * u - a * v);
    }
    assert pq > 0;
    MultipleMod(pq, b * u - a * v);
  }

  lemma Shuffle(q: int, b: int, p: int, u: int)
    ensures (q * b) * (p * u) == (p * q) * (b * u)
  {
  }

  /** Multiplying by an invertible factor does not merge remainders (`c*u - m*v == 1`). */
  lemma InvertibleFactor(a: int, b: int, c: int, m: int, u: int, v: int)
    requires m > 0 && c * u - m * v == 1
    requires (a * c) % m == (b * c) % m
    ensures (b - a) % m == 0
  {
    SameRemainder(a * c, b * c, m);
    var d := b - a;
    assert b * c - a * c == d * c;
    var t := (d * c) / m;
    assert d * c == m * t;
    calc {
      d;
      d * (c * u - m * v);
      d * (c * u) - d * (m * v);
      (d * c) * u - m * (d * v);
      (m * t) * u - m * (d * v);
      m * (t * u) - m * (d * v);
      m * (t * u - d * v);
    }
    MultipleMod(m, t * u - d * v);
  }

  /** A multiple of `m` strictly between 0 and `m` does not exist. */
  lemma NoSmallMultiple(d: int, m: int)
    requires 0 < d < m
    ensures d % m != 0
  {
  }
}
