/** Facts about division and products that the solver does not find by itself. */
module Arith {

  lemma DivMod(x: nat, a: nat)
    requires a > 0
    ensures x == x / a * a + x % a && x % a < a
  {
  }

  /** A product of larger factors is larger. */
  lemma Grows(a: nat, b: nat, c: nat, d: nat)
    requires a <= b && c <= d
    ensures a * c <= b * d
  {
    assert a * c <= b * c <= b * d;
  }

  lemma QuotientBound(x: nat, a: nat, n: nat)
    requires a > 0 && x < n * a
    ensures x / a < n
  {
    DivMod(x, a);
    var d := x / a;
    if d >= n { Grows(n, d, a, a); }
  }

  lemma Below(i: nat, n: nat, r: nat, a: nat)
    requires i < a && r < n
    ensures i * n + r < a * n
  {
    Grows(i + 1, a, n, n);
    assert (i + 1) * n == i * n + n;
  }

  lemma DivModUnique(x: nat, a: nat, q: nat, r: nat)
    requires a > 0 && x == q * a + r && r < a
    ensures x / a == q && x % a == r
  {
    DivMod(x, a);
    var d := x / a;
    assert (q + 1) * a == q * a + a && (d + 1) * a == d * a + a;
    if d > q { Grows(q + 1, d, a, a); }
    if d < q { Grows(d + 1, q, a, a); }
  }
}
