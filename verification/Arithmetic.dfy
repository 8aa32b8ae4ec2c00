/** Multiplication and division of natural numbers. */
module Arithmetic {
  lemma MulMono(a: nat, b: nat, p: nat)
    requires a <= b
    ensures a * p <= b * p
  {
  }

  lemma DivMono(a: nat, b: nat, p: nat)
    requires p > 0 && a <= b
    ensures a / p <= b / p
  {
    var qa, qb := a / p, b / p;
    assert a == qa * p + a % p && b == qb * p + b % p;
    if qa > qb {
      MulMono(qb + 1, qa, p);
    }
  }

  lemma DivMod(p: nat, q: nat, r: nat)
    requires r < p
    ensures (p * q + r) / p == q && (p * q + r) % p == r
  {
    var a := p * q + r;
    var k := a / p;
    assert a == k * p + a % p;
    if k < q {
      MulMono(k + 1, q, p);
    } else if k > q {
      MulMono(q + 1, k, p);
    }
  }
}
