/** Products, quotients and remainders of natural numbers. */
module Arithmetic {
  lemma ProductAtLeast(a: nat, k: int)
    requires k >= 1
    ensures a * k >= a
  {
  }

  lemma QuotientUnique(v: nat, a: nat, q: nat, r: nat)
    requires r < a && v == a * q + r
    ensures v / a == q
  {
    var p := v / a;
    assert v == a * p + v % a;
    assert a * (p - q) == a * p - a * q;
    assert a * (q - p) == a * q - a * p;
    if p > q {
      ProductAtLeast(a, p - q);
    } else if q > p {
      ProductAtLeast(a, q - p);
    }
  }

  lemma RemainderUnique(v: nat, a: nat, q: nat, r: nat)
    requires r < a && v == a * q + r
    ensures v % a == r
  {
    QuotientUnique(v, a, q, r);
    var p := v / a;
    assert v == a * p + v % a;
  }

  lemma ProductGrows(a: nat, b: nat, k: nat)
    requires a <= b
    ensures a * k <= b * k
  {
  }

  lemma QuotientBelow(v: nat, b: nat, k: nat)
    requires k > 0 && v < b * k
    ensures v / k < b
  {
    if v / k >= b {
      ProductGrows(b, v / k, k);
    }
  }

  lemma Distributes(a: int, b: int, k: int)
    ensures (a + b) * k == a * k + b * k
  {
  }
}
