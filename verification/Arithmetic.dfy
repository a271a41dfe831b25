/** Facts about products and quotients that several modules use. */
module Arithmetic {
  import opened Basics

  lemma MulMono(a: nat, b: nat, d: nat)
    requires a <= b
    ensures a * d <= b * d
  {}

  lemma MulAdd(a: int, b: int, d: int)
    ensures (a + b) * d == a * d + b * d
  {}

  lemma MulLess(a: nat, b: nat, d: pos)
    requires a * d < b * d
    ensures a < b
  {
    if b <= a { MulMono(b, a, d); }
  }

  lemma DivUnique(x: nat, q: nat, d: pos)
    requires q * d <= x < (q + 1) * d
    ensures x / d == q
  {
    var p := x / d;
    assert p * d <= x < (p + 1) * d by { MulAdd(p, 1, d); }
    MulLess(p, q + 1, d);
    MulLess(q, p + 1, d);
  }

  lemma ModOfMultiple(q: nat, d: pos)
    ensures (q * d) % d == 0
  {
    MulAdd(q, 1, d);
    DivUnique(q * d, q, d);
  }

  /** Dividing a multiple of `n * d` plus something small, digit by digit. */
  lemma DigitOf(k: nat, n: pos, q: nat, x: nat, d: pos)
    requires q < n && k * n * d + q * d <= x < k * n * d + (q + 1) * d
    ensures (x / d) % n == q
  {
    MulAdd(k * n, q, d);
    MulAdd(k * n, q + 1, d);
    DivUnique(x, k * n + q, d);
    MulAdd(k, 1, n);
    DivUnique(k * n + q, k, n);
  }
}
