/**
 * Exact decimal arithmetic for BigDecimal values, as reals: powers of ten,
 * `round(places)` in BigDecimal's default ROUND_HALF_UP mode (ties away from
 * zero) and `clamp`.
 */
module Decimal {

  function Pow10(n: nat): (p: nat)
    ensures p >= 1
  {
    if n == 0 then 1 else 10 * Pow10(n - 1)
  }

  lemma {:induction false} Pow10Add(a: nat, b: nat)
    ensures Pow10(a + b) == Pow10(a) * Pow10(b)
  {
    if a > 0 {
      Pow10Add(a - 1, b);
      assert Pow10(a + b) == 10 * Pow10(a - 1 + b);
    }
  }

  /** `x.round(places)` with ties rounded away from zero. */
  function RoundHalfUp(x: real, places: nat): real {
    RoundToUnit(x, Pow10(places) as real)
  }

  /** Rounds to the nearest multiple of `1 / m`, ties away from zero. */
  function RoundToUnit(x: real, m: real): real
    requires m > 0.0
  {
    if x >= 0.0 then RoundUpFromHalf(x, m) else -RoundUpFromHalf(-x, m)
  }

  function RoundUpFromHalf(y: real, m: real): real
    requires m > 0.0
  {
    (y * m + 0.5).Floor as real / m
  }

  lemma FloorOfIntPlusHalf(k: int)
    ensures (k as real + 0.5).Floor == k
  {
  }

  lemma DivFacts(k: real, m: real)
    requires m > 0.0
    ensures (k / m) * m == k
    ensures k >= 0.0 <==> k / m >= 0.0
    ensures -(k / m) == (-k) / m
  {
  }

  lemma RoundToUnitExact(k: int, m: real)
    requires m > 0.0
    ensures RoundToUnit(k as real / m, m) == k as real / m
  {
    var x := k as real / m;
    DivFacts(k as real, m);
    if k >= 0 {
      NonNegRound(x, m, k);
    } else {
      DivFacts((-k) as real, m);
      NonNegRound(-x, m, -k);
    }
  }

  lemma NonNegRound(y: real, m: real, k: int)
    requires m > 0.0 && y * m == k as real && y == k as real / m
    ensures RoundUpFromHalf(y, m) == y
  {
    FloorOfIntPlusHalf(k);
    assert y * m + 0.5 == k as real + 0.5;
  }

  /** Rounding leaves alone a value that already has at most `places` decimals. */
  lemma RoundExact(k: int, places: nat)
    ensures RoundHalfUp(k as real / Pow10(places) as real, places) == k as real / Pow10(places) as real
  {
    RoundToUnitExact(k, Pow10(places) as real);
  }

  /** `Comparable#clamp(lo, hi)`. */
  function Clamp(x: real, lo: real, hi: real): (r: real)
    requires lo <= hi
    ensures lo <= r <= hi
    ensures lo <= x <= hi ==> r == x
  {
    if x < lo then lo else if x > hi then hi else x
  }

  function ClampInt(x: int, lo: int, hi: int): (r: int)
    requires lo <= hi
    ensures lo <= r <= hi
    ensures lo <= x <= hi ==> r == x
  {
    if x < lo then lo else if x > hi then hi else x
  }
}
