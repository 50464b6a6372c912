/** Facts about products and quotients of natural numbers. */
module Arithmetic {

  lemma MulMono(x: nat, y: nat, k: nat)
    requires x <= y
    ensures x * k <= y * k
  {
  }

  lemma MulAdd(x: int, y: int, k: int)
    ensures (x + y) * k == x * k + y * k
  {
  }

  lemma MulAssociates(x: int, y: int, z: int)
    ensures x * y * z == x * (y * z) == (x * z) * y
  {
  }

  lemma DivMod(q: nat, r: nat, d: nat)
    requires r < d
    ensures (q * d + r) / d == q && (q * d + r) % d == r
  {
    var n := q * d + r;
    var p, s := n / d, n % d;
    assert n == p * d + s;
    MulAdd(p - q, q, d);
    if p > q {
      MulMono(1, p - q, d);
    } else if p < q {
      MulAdd(q - p, p, d);
      MulMono(1, q - p, d);
    }
  }

  lemma Division(n: nat, d: nat) returns (q: nat, r: nat)
    requires d > 0
    ensures n == q * d + r && r < d && n / d == q && n % d == r
  {
    q, r := n / d, n % d;
  }

  lemma QuotientIs(n: nat, q: nat, r: nat, d: nat)
    requires r < d && n == q * d + r
    ensures n / d == q
  {
    DivMod(q, r, d);
  }

  lemma DivBound(n: nat, b: nat, d: nat)
    requires d > 0 && n < b * d
    ensures n / d < b
  {
    if n / d >= b { MulMono(b, n / d, d); }
  }
}
