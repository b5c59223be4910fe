/** Counters that run round a cycle. */
module Cycles {
  /** 16-bit ids run from 1 to 0xfffe and then start again. */
  const ID_PERIOD := 0xfffe

  lemma Multiple(k: int, p: nat)
    requires k >= 1 && p >= 1
    ensures k * p >= p
  {
    assert (k - 1) * p >= 0;
  }

  lemma OnlyZero(k: int, p: int, d: int)
    requires -p < d < p && k * p == d
    ensures d == 0
  {
    if k > 0 { Multiple(k, p); }
    if k < 0 { Multiple(-k, p); }
  }

  /** Two numbers leave the same remainder exactly when a whole number of periods lies between them. */
  lemma Periods(p: nat, a: nat, b: nat)
    requires p > 0 && a <= b
    ensures a % p == b % p <==> (b - a) % p == 0
  {
    var d := b - a;
    var x, y, q := a / p, b / p, d / p;
    assert a == x * p + a % p && b == y * p + b % p && d == q * p + d % p;
    if d % p == 0 {
      OnlyZero(y - x - q, p, a % p - b % p);
    }
    if a % p == b % p {
      OnlyZero(y - x - q, p, d % p);
    }
  }
}
