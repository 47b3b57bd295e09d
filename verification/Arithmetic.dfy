/** The few facts about division and multiples that window arithmetic needs. */
module Arithmetic {

  /** Distinct multiples of `d` are at least `d` apart. */
  lemma {:induction false} MultiplesApart(a: int, b: int, d: nat)
    requires a < b
    ensures a * d + d <= b * d
    decreases b - a
  {
    assert b * d == (b - 1) * d + d;
    if a + 1 < b {
      MultiplesApart(a, b - 1, d);
    }
  }

  /** Quotient and remainder are determined by the division equation. */
  lemma DivisionIsUnique(x: int, d: nat, q: int, r: nat)
    requires d > 0 && x == q * d + r && r < d
    ensures x / d == q && x % d == r
  {
    if q < x / d {
      MultiplesApart(q, x / d, d);
    } else if q > x / d {
      MultiplesApart(x / d, q, d);
    }
  }

  lemma MultipleMod(k: int, d: nat)
    requires d > 0
    ensures k * d % d == 0 && k * d / d == k
  {
    DivisionIsUnique(k * d, d, k, 0);
  }

  /** The largest multiple of `d` that is at most `t`. */
  function Floored(t: nat, d: nat): (r: nat)
    requires d > 0
    ensures r <= t < r + d
  {
    if t < d then 0 else d + Floored(t - d, d)
  }

  lemma {:induction false} FlooredIs(t: nat, d: nat)
    requires d > 0
    ensures Floored(t, d) == t / d * d && Floored(t, d) % d == 0
  {
    if t < d {
      DivisionIsUnique(t, d, 0, t);
      MultipleMod(0, d);
    } else {
      FlooredIs(t - d, d);
      var q := (t - d) / d;
      assert t == (q + 1) * d + (t - d) % d;
      DivisionIsUnique(t, d, q + 1, (t - d) % d);
      assert (q + 1) * d == q * d + d;
      MultipleMod(q + 1, d);
    }
  }

  /** Rounding down to a multiple. */
  lemma RoundDown(t: nat, d: nat)
    requires d > 0
    ensures 0 <= t / d * d <= t < t / d * d + d && t / d * d % d == 0
  {
    MultipleMod(t / d, d);
  }

  lemma AddMultiple(a: int, k: int, d: nat)
    requires d > 0 && a % d == 0
    ensures (a + k * d) % d == 0
  {
    var q := a / d;
    assert a == q * d;
    assert a + k * d == (q + k) * d;
    MultipleMod(q + k, d);
  }

  /** Two multiples of `d` less than `d` apart are equal. */
  lemma CloseMultiples(a: int, b: int, d: nat)
    requires d > 0 && a % d == 0 && b % d == 0 && a <= b < a + d
    ensures a == b
  {
    var q, r := a / d, b / d;
    assert a == q * d && b == r * d;
    if q < r {
      MultiplesApart(q, r, d);
    } else if r < q {
      MultiplesApart(r, q, d);
    }
  }

  lemma SubsetSize<T>(a: set<T>, b: set<T>)
    requires a <= b
    ensures |a| <= |b|
  {
    assert b == a + (b - a);
  }
}
