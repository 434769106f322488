// The settings object that a query runs under: the array filter strategy
// and the precision and rounding mode of avg(). Context and JigsonConfig
// are the same class under two names; one class models both.

module Settings {
  import opened Strings
  import opened Decimals
  import opened JsonCriteria

  /** ROUNDING_MODE_AMOUNT: how many BigDecimal rounding modes there are. */
  const RoundingModeAmount: int := 8

  /** The numeric settings as avg() reads them at one moment. */
  datatype Numbers = Numbers(precision: int, mode: int)

  /** Everything a query reads from its settings, taken at one moment. */
  datatype Snapshot = Snapshot(strategy: Strategy, numbers: Numbers)

  /** The settings of a fresh context: ALL_IF_ANY_MATCHING, precision 2,
      HALF_UP. */
  const Defaults: Snapshot := Snapshot(AllIfAnyMatching, Numbers(2, RoundHalfUp))

  /** The stored rounding mode after `withRoundingMode(m)`: Java's `%`, so
      a negative argument leaves a negative mode. */
  function StoredMode(m: int): (r: int)
    requires IsInt32(m)
    ensures -RoundingModeAmount < r < RoundingModeAmount
    ensures m >= 0 ==> 0 <= r
    ensures m < 0 ==> r <= 0
    ensures JavaDiv(m, RoundingModeAmount) * RoundingModeAmount + r == m
  {
    JavaDivRem(m, RoundingModeAmount);
    JavaRem(m, RoundingModeAmount)
  }

  /** Context (and JigsonConfig): the filter strategy, the precision as
      given and the rounding mode reduced modulo 8. The setters change
      their own field only and hand the same object back for chaining. */
  class Context {
    var strategy: Strategy
    var storedPrecision: int
    var storedMode: int

    ghost predicate Valid()
      reads this
    {
      IsInt32(storedPrecision) && -RoundingModeAmount < storedMode < RoundingModeAmount
    }

    /** newContext(): ALL_IF_ANY_MATCHING, precision 2, HALF_UP. */
    constructor ()
      ensures Valid() && Current() == Defaults
    {
      strategy := Strategy.AllIfAnyMatching;
      storedPrecision := 2;
      storedMode := RoundHalfUp;
    }

    method AllIfAnyMatching() returns (r: Context)
      modifies this
      ensures r == this && strategy == Strategy.AllIfAnyMatching
      ensures storedPrecision == old(storedPrecision) && storedMode == old(storedMode)
    {
      strategy := Strategy.AllIfAnyMatching;
      r := this;
    }

    method KeepMatchingAndPrimitives() returns (r: Context)
      modifies this
      ensures r == this && strategy == Strategy.KeepMatchingAndPrimitives
      ensures storedPrecision == old(storedPrecision) && storedMode == old(storedMode)
    {
      strategy := Strategy.KeepMatchingAndPrimitives;
      r := this;
    }

    method OnlyMatching() returns (r: Context)
      modifies this
      ensures r == this && strategy == Strategy.OnlyMatching
      ensures storedPrecision == old(storedPrecision) && storedMode == old(storedMode)
    {
      strategy := Strategy.OnlyMatching;
      r := this;
    }

    method WithPrecision(precision: int) returns (r: Context)
      requires Valid() && IsInt32(precision)
      modifies this
      ensures Valid() && r == this && storedPrecision == precision
      ensures strategy == old(strategy) && storedMode == old(storedMode)
    {
      storedPrecision := precision;
      r := this;
    }

    /** The same change as WithPrecision, for chaining further numeric
        settings. */
    method WithPrecisionAnd(precision: int) returns (r: Context)
      requires Valid() && IsInt32(precision)
      modifies this
      ensures Valid() && r == this && storedPrecision == precision
      ensures strategy == old(strategy) && storedMode == old(storedMode)
    {
      var _ := WithPrecision(precision);
      r := this;
    }

    /** Math.abs of the stored precision: never negative, except for
        Integer.MIN_VALUE, whose absolute value overflows to itself. */
    function Precision(): (p: int)
      requires Valid()
      reads this
      ensures IsInt32(p)
      ensures storedPrecision != IntMin ==> p >= 0 && (p == storedPrecision || p == -storedPrecision)
      ensures storedPrecision == IntMin ==> p == IntMin
    {
      Abs32(storedPrecision)
    }

    method WithRoundingMode(mode: int) returns (r: Context)
      requires Valid() && IsInt32(mode)
      modifies this
      ensures Valid() && r == this && storedMode == StoredMode(mode)
      ensures strategy == old(strategy) && storedPrecision == old(storedPrecision)
    {
      storedMode := StoredMode(mode);
      r := this;
    }

    /** The same change as WithRoundingMode, for chaining. */
    method RoundingModeAnd(mode: int) returns (r: Context)
      requires Valid() && IsInt32(mode)
      modifies this
      ensures Valid() && r == this && storedMode == StoredMode(mode)
      ensures strategy == old(strategy) && storedPrecision == old(storedPrecision)
    {
      var _ := WithRoundingMode(mode);
      r := this;
    }

    function RoundingMode(): (m: int)
      requires Valid()
      reads this
      ensures -RoundingModeAmount < m < RoundingModeAmount
    {
      storedMode
    }

    /** What a flow reads from this context when it is built. */
    function Current(): (s: Snapshot)
      requires Valid()
      reads this
      ensures s.strategy == strategy
      ensures s.numbers.precision == Precision() && s.numbers.mode == RoundingMode()
    {
      Snapshot(strategy, Numbers(Precision(), RoundingMode()))
    }
  }

  /** A mode of 8 or more wraps around: 12 is stored as HALF_UP; a
      negative mode keeps its sign. */
  lemma StoredModeExamples()
    ensures StoredMode(12) == RoundHalfUp
    ensures StoredMode(7) == RoundUnnecessary
    ensures StoredMode(-3) == -3 && StoredMode(-8) == 0
  {
  }

  /** The stored mode is a valid rounding mode exactly when the argument is
      not negative, or is a negative multiple of 8. */
  lemma {:induction false} StoredModeIsValid(m: int)
    requires IsInt32(m)
    ensures RoundUp <= StoredMode(m) <= RoundUnnecessary <==> m >= 0 || m % RoundingModeAmount == 0
  {
    var r := StoredMode(m);
    if m < 0 {
      var q := JavaDiv(m, RoundingModeAmount);
      assert q * RoundingModeAmount + r == m;
      if r == 0 {
        assert m == q * RoundingModeAmount;
      } else {
        assert r < 0;
        assert m % RoundingModeAmount == (q - 1) * RoundingModeAmount % RoundingModeAmount + (r + RoundingModeAmount) % RoundingModeAmount by {
          assert m == (q - 1) * RoundingModeAmount + (r + RoundingModeAmount);
        }
      }
    }
  }

  /** A precision of Integer.MIN_VALUE is read back negative: it is the one
      setting for which precision() is not the distance from zero. */
  lemma PrecisionOverflow(c: Context)
    requires c.Valid() && c.storedPrecision == IntMin
    ensures c.Precision() < 0
  {
  }
}
