/** java.math.BigDecimal as far as the aggregates use it: the string
    constructor, toString, add, compareTo/max/min and
    divide(divisor, scale, roundingMode). */
module Decimals {
  import opened Results
  import opened Strings

  /** The number unscaled × 10^(-scale); scale may be negative. */
  datatype Dec = Dec(unscaled: int, scale: int)

  function Pow10(n: nat): (p: nat)
    ensures p >= 1
  {
    if n == 0 then 1 else 10 * Pow10(n - 1)
  }

  lemma {:induction false} Pow10Add(a: nat, b: nat)
    ensures Pow10(a + b) == Pow10(a) * Pow10(b)
  {
    if a > 0 {
      Pow10Add(a - 1, b);
      assert Pow10(a + b) == 10 * Pow10(a - 1 + b);
      assert (10 * Pow10(a - 1)) * Pow10(b) == 10 * (Pow10(a - 1) * Pow10(b));
    }
  }

  /** The unscaled value of `d` written at the (larger) scale `s`: the
      number unscaled × 10^(-scale) is the same as this × 10^(-s). */
  function Rescale(d: Dec, s: int): int
    requires s >= d.scale
  {
    d.unscaled * Pow10(s - d.scale)
  }

  /** Rescaling in two steps is rescaling in one: a decimal written at scale
      `s` and then at the finer scale `t` is the decimal written at `t`. */
  lemma RescaleTwice(d: Dec, s: int, t: int)
    requires d.scale <= s <= t
    ensures Rescale(Dec(Rescale(d, s), s), t) == Rescale(d, t)
  {
    Pow10Add(s - d.scale, t - s);
    assert (d.unscaled * Pow10(s - d.scale)) * Pow10(t - s) == d.unscaled * (Pow10(s - d.scale) * Pow10(t - s));
  }

  function MaxInt(a: int, b: int): int { if a >= b then a else b }

  /** BigDecimal.add: the exact sum at the larger of the two scales. */
  function Add(a: Dec, b: Dec): (r: Dec)
    ensures r.scale == MaxInt(a.scale, b.scale)
  {
    var s := MaxInt(a.scale, b.scale);
    Dec(Rescale(a, s) + Rescale(b, s), s)
  }

  /** The sum is exact: written at any scale fine enough for both operands,
      it is the sum of the operands written there. */
  lemma AddIsExact(a: Dec, b: Dec, t: int)
    requires t >= a.scale && t >= b.scale
    ensures Rescale(Add(a, b), t) == Rescale(a, t) + Rescale(b, t)
  {
    var s := MaxInt(a.scale, b.scale);
    var x, y := Rescale(a, s), Rescale(b, s);
    RescaleTwice(a, s, t);
    RescaleTwice(b, s, t);
    assert (x + y) * Pow10(t - s) == x * Pow10(t - s) + y * Pow10(t - s);
  }

  /** BigDecimal.compareTo: -1, 0 or 1 by numerical value, whatever the scales. */
  function Compare(a: Dec, b: Dec): (c: int)
    ensures -1 <= c <= 1
  {
    var s := MaxInt(a.scale, b.scale);
    var x := Rescale(a, s);
    var y := Rescale(b, s);
    if x < y then -1 else if x == y then 0 else 1
  }

  /** Multiplying by one positive factor keeps the order of two integers. */
  lemma ScaleMonotone(x: int, y: int, p: int)
    requires p > 0
    ensures x < y <==> x * p < y * p
    ensures x == y <==> x * p == y * p
  {
    assert y * p - x * p == (y - x) * p;
    if x < y {
      assert (y - x) * p > 0;
    } else if y < x {
      assert (x - y) * p > 0;
    }
  }

  /** compareTo is by value: at any scale fine enough for both operands,
      the sign of the comparison is that of the difference of the two. */
  lemma CompareIsByValue(a: Dec, b: Dec, t: int)
    requires t >= a.scale && t >= b.scale
    ensures Compare(a, b) < 0 <==> Rescale(a, t) < Rescale(b, t)
    ensures Compare(a, b) == 0 <==> Rescale(a, t) == Rescale(b, t)
    ensures Compare(a, b) > 0 <==> Rescale(a, t) > Rescale(b, t)
  {
    var s := MaxInt(a.scale, b.scale);
    var x, y := Rescale(a, s), Rescale(b, s);
    assert Compare(a, b) == (if x < y then -1 else if x == y then 0 else 1);
    RescaleTwice(a, s, t);
    RescaleTwice(b, s, t);
    ScaleMonotone(x, y, Pow10(t - s));
    ScaleMonotone(y, x, Pow10(t - s));
  }

  /** BigDecimal.max: `a` when it is not smaller, else `b`. */
  function Max(a: Dec, b: Dec): (r: Dec)
    ensures r == a || r == b
    ensures Compare(r, a) >= 0 && Compare(r, b) >= 0
  {
    CompareAntisymmetric(a, b);
    if Compare(a, b) >= 0 then a else b
  }

  /** BigDecimal.min: `a` when it is not larger, else `b`. */
  function Min(a: Dec, b: Dec): (r: Dec)
    ensures r == a || r == b
    ensures Compare(r, a) <= 0 && Compare(r, b) <= 0
  {
    CompareAntisymmetric(a, b);
    if Compare(a, b) <= 0 then a else b
  }

  lemma CompareAntisymmetric(a: Dec, b: Dec)
    ensures Compare(a, b) == -Compare(b, a)
    ensures Compare(a, a) == 0
  {
  }

  lemma CompareTransitive(a: Dec, b: Dec, c: Dec)
    ensures Compare(a, b) <= 0 && Compare(b, c) <= 0 ==> Compare(a, c) <= 0
    ensures Compare(a, b) >= 0 && Compare(b, c) >= 0 ==> Compare(a, c) >= 0
  {
    var t := MaxInt(a.scale, MaxInt(b.scale, c.scale));
    CompareIsByValue(a, b, t);
    CompareIsByValue(b, c, t);
    CompareIsByValue(a, c, t);
  }

  /** The BigDecimal rounding modes, by their legacy int codes. */
  const RoundUp := 0
  const RoundDown := 1
  const RoundCeiling := 2
  const RoundFloor := 3
  const RoundHalfUp := 4
  const RoundHalfDown := 5
  const RoundHalfEven := 6
  const RoundUnnecessary := 7

  function AbsInt(x: int): nat { if x < 0 then -x else x }

  /** Whether rounding the magnitude q + r/d (0 <= r < d) moves away from zero. */
  function RoundsAway(mode: int, q: nat, r: nat, d: nat, positive: bool): bool
    requires RoundUp <= mode < RoundUnnecessary && r < d
  {
    if r == 0 then false
    else if mode == RoundUp then true
    else if mode == RoundDown then false
    else if mode == RoundCeiling then positive
    else if mode == RoundFloor then !positive
    else if mode == RoundHalfUp then 2 * r >= d
    else if mode == RoundHalfDown then 2 * r > d
    else 2 * r > d || (2 * r == d && q % 2 == 1)
  }

  /** The magnitude m with the sign of n / d. */
  function WithQuotientSign(n: int, d: int, m: nat): int {
    if (n < 0) != (d < 0) then -(m as int) else m
  }

  /** n / d rounded to an integer in the given mode; UNNECESSARY refuses to round. */
  function RoundedQuotient(n: int, d: int, mode: int): (r: Result<int>)
    requires d != 0 && RoundUp <= mode <= RoundUnnecessary
    ensures mode != RoundUnnecessary ==> r.Ok?
  {
    var (q, rem) := DivRem(AbsInt(n), AbsInt(d));
    if mode == RoundUnnecessary then
      if rem != 0 then Err(Arithmetic) else Ok(WithQuotientSign(n, d, q))
    else
      var away := RoundsAway(mode, q, rem, AbsInt(d), (n < 0) == (d < 0));
      Ok(WithQuotientSign(n, d, if away then q + 1 else q))
  }

  lemma SignedProduct(n: int, d: int, m: nat)
    requires d != 0
    ensures WithQuotientSign(n, d, m) * d == (if n < 0 then -(m * AbsInt(d)) else m * AbsInt(d))
  {
    if d < 0 {
      assert (-(m as int)) * d == m * (-d);
    }
  }

  lemma NextMultiple(q: nat, ad: nat)
    ensures (q + 1) * ad == q * ad + ad
  {
  }

  /** Division with remainder of naturals. */
  function DivRem(n: nat, d: nat): (qr: (nat, nat))
    requires d > 0
    ensures n == qr.0 * d + qr.1 && qr.1 < d
  {
    (n / d, n % d)
  }

  /** The rounded quotient r of n / d is within one unit of it: |r*d - n| < |d|;
      within half a unit in the HALF modes; exact when UNNECESSARY succeeds,
      which it does exactly when d divides n. */
  lemma RoundedQuotientIsClose(n: int, d: int, mode: int)
    requires d != 0 && RoundUp <= mode <= RoundUnnecessary
    ensures var r := RoundedQuotient(n, d, mode);
      && (r.Ok? ==> AbsInt(r.value * d - n) < AbsInt(d))
      && (r.Ok? && RoundHalfUp <= mode <= RoundHalfEven ==> 2 * AbsInt(r.value * d - n) <= AbsInt(d))
      && (mode == RoundUnnecessary ==> (r.Ok? <==> DivRem(AbsInt(n), AbsInt(d)).1 == 0))
      && (r.Ok? && mode == RoundUnnecessary ==> r.value * d == n)
  {
    var an, ad := AbsInt(n), AbsInt(d);
    var (q, rem) := DivRem(an, ad);
    NextMultiple(q, ad);
    var r := RoundedQuotient(n, d, mode);
    if r.Ok? {
      var m: nat := if r.value < 0 then -r.value else r.value;
      assert r.value == WithQuotientSign(n, d, m);
      SignedProduct(n, d, m);
    }
  }

  /** The direction of each directed mode: UP never shrinks the magnitude,
      DOWN never grows it, CEILING never goes below n / d, FLOOR never above. */
  lemma RoundedQuotientDirection(n: int, d: int, mode: int)
    requires d != 0 && RoundUp <= mode < RoundUnnecessary
    ensures var r := RoundedQuotient(n, d, mode).value;
      && (mode == RoundUp ==> AbsInt(r * d) >= AbsInt(n))
      && (mode == RoundDown ==> AbsInt(r * d) <= AbsInt(n))
      && (mode == RoundCeiling ==> if d > 0 then r * d >= n else r * d <= n)
      && (mode == RoundFloor ==> if d > 0 then r * d <= n else r * d >= n)
  {
    var an, ad := AbsInt(n), AbsInt(d);
    var (q, rem) := DivRem(an, ad);
    NextMultiple(q, ad);
    var r := RoundedQuotient(n, d, mode).value;
    var m: nat := if r < 0 then -r else r;
    assert r == WithQuotientSign(n, d, m);
    SignedProduct(n, d, m);
  }

  /** BigDecimal.divide(divisor, scale, roundingMode): the quotient at the
      requested scale. An invalid mode is checked first, then a zero divisor. */
  function Divide(a: Dec, b: Dec, scale: int, mode: int): (r: Result<Dec>)
    ensures (mode < RoundUp || mode > RoundUnnecessary) ==> r == Err(IllegalArgument)
    ensures RoundUp <= mode <= RoundUnnecessary && b.unscaled == 0 ==> r == Err(Arithmetic)
    ensures r.Ok? ==> r.value.scale == scale
    ensures RoundUp <= mode < RoundUnnecessary && b.unscaled != 0 ==> r.Ok?
  {
    if mode < RoundUp || mode > RoundUnnecessary then Err(IllegalArgument)
    else if b.unscaled == 0 then Err(Arithmetic)
    else
      var nd := DivisionOperands(a, b, scale);
      var q :- RoundedQuotient(nd.0, nd.1, mode);
      Ok(Dec(q, scale))
  }

  /** The integers divide rounds: the dividend and the divisor moved `scale`
      places to the left, both multiplied up to their common scale. */
  function DivisionOperands(a: Dec, b: Dec, scale: int): (nd: (int, int))
    ensures b.unscaled != 0 ==> nd.1 != 0
  {
    var e := scale - a.scale + b.scale;
    if e >= 0 then (a.unscaled * Pow10(e), b.unscaled)
    else
      assert b.unscaled != 0 ==> b.unscaled * Pow10(-e) != 0;
      (a.unscaled, b.unscaled * Pow10(-e))
  }

  /** The operands divide rounds are the dividend and the divisor moved
      `scale` places, both written at their common (larger) scale, where
      neither changes value (RescaleTwice). */
  lemma OperandsAtCommonScale(a: Dec, b: Dec, scale: int)
    ensures var t := MaxInt(a.scale, b.scale + scale);
      DivisionOperands(a, b, scale) == (Rescale(a, t), Rescale(Dec(b.unscaled, b.scale + scale), t))
  {
    var e := scale - a.scale + b.scale;
    if e >= 0 {
      assert Pow10(0) == 1;
    } else {
      assert Pow10(0) == 1;
    }
  }

  /** divide(b, scale, mode) returns the quotient of those operands rounded
      to a whole number of units 10^(-scale): less than one unit off, at most
      half a unit off in the HALF modes, and exact when UNNECESSARY does not
      throw. */
  lemma DivideIsClose(a: Dec, b: Dec, scale: int, mode: int)
    requires Divide(a, b, scale, mode).Ok?
    ensures var nd := DivisionOperands(a, b, scale);
      var q := Divide(a, b, scale, mode).value.unscaled;
      && AbsInt(q * nd.1 - nd.0) < AbsInt(nd.1)
      && (RoundHalfUp <= mode <= RoundHalfEven ==> 2 * AbsInt(q * nd.1 - nd.0) <= AbsInt(nd.1))
      && (mode == RoundUnnecessary ==> q * nd.1 == nd.0)
  {
    var nd := DivisionOperands(a, b, scale);
    assert Divide(a, b, scale, mode).value.unscaled == RoundedQuotient(nd.0, nd.1, mode).value;
    RoundedQuotientIsClose(nd.0, nd.1, mode);
  }
}
