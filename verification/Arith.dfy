/** Multiplication, division and powers of two, kept apart so other proofs stay linear. */
module Arith {

  function Pow2(n: nat): (r: nat)
    ensures r > 0
  {
    if n == 0 then 1 else 2 * Pow2(n - 1)
  }

  lemma {:induction false} Pow2Add(a: nat, b: nat)
    ensures Pow2(a + b) == Pow2(a) * Pow2(b)
  {
    if a != 0 {
      Pow2Add(a - 1, b);
      Assoc(2, Pow2(a - 1), Pow2(b));
    }
  }

  lemma {:induction false} Pow2Monotone(a: nat, b: nat)
    requires a <= b
    ensures Pow2(a) <= Pow2(b)
    ensures a < b ==> Pow2(a) < Pow2(b)
    decreases b
  {
    if a < b {
      Pow2Monotone(a, b - 1);
    }
  }

  lemma Assoc(a: int, b: int, c: int)
    ensures a * (b * c) == (a * b) * c
  {}

  lemma Distrib(a: int, b: int, s: int)
    ensures (a + b) * s == a * s + b * s
    ensures (a - b) * s == a * s - b * s
  {}

  lemma MulMono(a: int, b: int, s: nat)
    requires a <= b
    ensures a * s <= b * s
  {
    Distrib(b, a, s);
    Nonneg(b - a, s);
  }

  lemma Nonneg(a: nat, s: nat)
    ensures a * s >= 0
  {}

  lemma MulLess(a: int, b: int, s: nat)
    requires a * s < b * s
    ensures a < b
  {
    if a >= b {
      MulMono(b, a, s);
    }
  }

  /** Quotient and remainder are determined by their defining equation. */
  lemma DivModUnique(v: int, s: nat, q: int, r: int)
    requires s > 0 && v == q * s + r && 0 <= r < s
    ensures v / s == q && v % s == r
  {
    var q0, r0 := v / s, v % s;
    assert v == q0 * s + r0;
    Distrib(q0, 1, s);
    Distrib(q, 1, s);
    assert q0 * s < (q + 1) * s;
    MulLess(q0, q + 1, s);
    assert q * s < (q0 + 1) * s;
    MulLess(q, q0 + 1, s);
  }

  lemma MultipleMod(q: int, s: nat)
    requires s > 0
    ensures (q * s) % s == 0 && (q * s) / s == q
  {
    DivModUnique(q * s, s, q, 0);
  }

  lemma DivExact(v: int, s: nat)
    requires s > 0
    ensures v == (v / s) * s + v % s
  {}

  /** Clearing the low part of `v < k * s` leaves room for one more step of `s`. */
  lemma FloorFits(v: nat, s: nat, k: nat)
    requires s > 0 && v < k * s
    ensures var base := v - v % s;
            0 <= base <= v < base + s && base % s == 0 && base + s <= k * s
  {
    var q := v / s;
    DivExact(v, s);
    MultipleMod(q, s);
    Nonneg(q, s);
    MulLess(q, k, s);
    MulMono(q + 1, k, s);
    Distrib(q, 1, s);
  }

  /** Aligned ranges, one `k` times as long as the other, are nested when they meet. */
  lemma AlignedNested(a: nat, s: nat, b: nat, t: nat, k: nat, v: nat)
    requires s > 0 && t == k * s && t > 0
    requires a % s == 0 && b % t == 0
    requires a <= v < a + s && b <= v < b + t
    ensures b <= a && a + s <= b + t
  {
    var p, q := a / s, b / t;
    DivExact(a, s);
    DivExact(b, t);
    Assoc(q, k, s);
    var m := q * k;
    assert b == m * s && a == p * s;
    Distrib(p, 1, s);
    MulLess(m, p + 1, s);
    MulMono(m, p, s);
    Distrib(m, k, s);
    MulLess(p, m + k, s);
    MulMono(p + 1, m + k, s);
  }
}
