/** Products, quotients and remainders of naturals: what index arithmetic needs; and products of reals. */
module Arithmetic {

  function Product(a: nat, b: nat): (p: nat)
    ensures p == a * b
  {
    MulNat(a, b);
    a * b
  }

  function Quot(a: nat, m: nat): (q: nat)
    requires 0 < m
    ensures q == a / m
  {
    Divided(a, m);
    a / m
  }

  /** The product of two reals, under a name that proofs can hide. */
  function Times(x: real, y: real): real {
    x * y
  }

  function Min(a: nat, b: nat): nat {
    if a <= b then a else b
  }

  lemma MulNat(a: nat, b: nat)
    ensures 0 <= a * b
  {
  }

  lemma Divided(a: nat, m: nat)
    requires 0 < m
    ensures a / m * m <= a < a / m * m + m && a == a / m * m + a % m
  {
  }

  lemma MulMono(a: nat, b: nat, m: nat)
    requires a <= b
    ensures a * m <= b * m
  {
  }

  lemma Succ(a: nat, m: nat)
    ensures (a + 1) * m == a * m + m
  {
  }

  /** A quotient and remainder are unique. */
  lemma Split(q: nat, r: nat, q': nat, r': nat, m: nat)
    requires r < m && r' < m && q * m + r == q' * m + r'
    ensures q == q' && r == r'
  {
    if q < q' {
      MulMono(q + 1, q', m);
      Succ(q, m);
    } else if q' < q {
      MulMono(q' + 1, q, m);
      Succ(q', m);
    }
  }

  lemma DivMod(q: nat, r: nat, m: nat)
    requires r < m
    ensures 0 <= q * m + r && (q * m + r) / m == q && (q * m + r) % m == r
  {
    MulNat(q, m);
    var a := q * m + r;
    Divided(a, m);
    Split(q, r, a / m, a % m, m);
  }

  /** Row q < n, place r < m of a row-major n by m table lies inside it. */
  lemma Below(q: nat, r: nat, n: nat, m: nat)
    requires q < n && r < m
    ensures 0 <= q * m + r < n * m
  {
    MulMono(q + 1, n, m);
    Succ(q, m);
    MulNat(q, m);
  }

  lemma Quotient(k: nat, n: nat, m: nat)
    requires 0 < m && k < n * m
    ensures k / m < n
  {
    Divided(k, m);
    if n <= k / m {
      MulMono(n, k / m, m);
    }
  }
}
