/**
 * `Fixed` from resistor.py: a decimal number held as an integer mantissa and
 * an integer exponent, value = mantissa * 10^exponent.
 */
module FixedPoint {
  import opened Wrappers
  import opened Decimal

  datatype Fixed = Fixed(mantissa: int, exponent: int)

  /** `Fixed.as_float`: the value the pair denotes, exactly; it has the mantissa's sign. */
  function AsFloat(f: Fixed): (r: real)
    ensures r > 0.0 <==> f.mantissa > 0
    ensures r == 0.0 <==> f.mantissa == 0
    ensures r < 0.0 <==> f.mantissa < 0
  {
    Scale(f.mantissa as real, f.exponent)
  }

  /** `as_float` is m * 10^e: a multiplication for e >= 0, a division by 10^-e otherwise. */
  lemma AsFloatExact(f: Fixed)
    ensures f.exponent >= 0 ==> AsFloat(f) == (f.mantissa * Pow10Nat(f.exponent)) as real
    ensures f.exponent < 0 ==> AsFloat(f) == f.mantissa as real / Pow10Nat(-f.exponent) as real
  {
    if f.exponent >= 0 {
      ScaleNat(f.mantissa, f.exponent);
    } else {
      ScaleDown(f.mantissa as real, -f.exponent);
    }
  }

  /**
   * `Fixed.from_float(val, places)`: exponent = floor(log10 val) - places,
   * mantissa = round(val / 10^exponent). `math.log10` raises for a value that
   * is not positive.
   */
  function FromFloat(val: real, places: int): (r: Result<Fixed>)
    ensures r.Failure? <==> val <= 0.0
    ensures r.Failure? ==> r.error == MathDomainError(val)
  {
    if val <= 0.0 then Failure(MathDomainError(val))
    else
      var exponent := FloorLog10(val) - places;
      Success(Fixed(RoundHalfEven(Scale(val, -exponent)), exponent))
  }

  /**
   * The scaled value that from_float rounds lies in [10^places, 10^(places+1)),
   * and the exponent plus places is the order of magnitude of val.
   */
  lemma FromFloatScaled(val: real, places: int)
    requires val > 0.0
    ensures var e := FromFloat(val, places).value.exponent;
      e + places == FloorLog10(val) &&
      Pow10(places) <= Scale(val, -e) < Pow10(places + 1)
  {
    var e := FloorLog10(val) - places;
    assert FromFloat(val, places).value.exponent == e;
    ScaledIntoRange(val, e, places);
  }

  /** A value in [10^(e+p), 10^(e+p+1)) scaled by 10^-e lies in [10^p, 10^(p+1)). */
  lemma ScaledIntoRange(val: real, e: int, places: int)
    requires Pow10(e + places) <= val < Pow10(e + places + 1)
    ensures Pow10(places) <= Scale(val, -e) < Pow10(places + 1)
  {
    ScaleMonotone(Pow10(e + places), val, -e);
    ScaleMonotone(val, Pow10(e + places + 1), -e);
    ScaleAdd(1.0, e + places, -e);
    ScaleAdd(1.0, e + places + 1, -e);
  }

  /**
   * For a positive value and places >= 0, the mantissa has places + 1 digits,
   * except that it is 10^(places+1) when rounding carries, which happens only
   * when the scaled value is within one half of 10^(places+1). The result is
   * within half a unit of the last place of val.
   */
  lemma FromFloatBounds(val: real, places: nat)
    requires val > 0.0
    ensures var f := FromFloat(val, places).value;
      Pow10Nat(places) <= f.mantissa <= Pow10Nat(places + 1) &&
      (f.mantissa == Pow10Nat(places + 1) ==> Scale(val, -f.exponent) >= Pow10Nat(places + 1) as real - 0.5) &&
      Abs(AsFloat(f) - val) <= Pow10(f.exponent) / 2.0
  {
    var f := FromFloat(val, places).value;
    var e := f.exponent;
    var x := Scale(val, -e);
    assert f.mantissa == RoundHalfEven(x);
    FromFloatScaled(val, places);
    Pow10OfNat(places);
    Pow10OfNat(places + 1);
    assert Scale(x, e) == val by {
      ScaleAdd(val, -e, e);
    }
    RoundingError(x, f.mantissa, e);
  }

  /** Scaled by 10^e, a rounding error of at most 1/2 is at most 10^e / 2. */
  lemma RoundingError(x: real, m: int, e: int)
    requires -0.5 <= x - m as real <= 0.5
    ensures Abs(Scale(m as real, e) - Scale(x, e)) <= Pow10(e) / 2.0
  {
    ScaleDiff(m as real, x, e);
    ScaleMonotone(m as real - x, 0.5, e);
    ScaleMonotone(-0.5, m as real - x, e);
    ScaleDiff(0.0, 0.5, e);
    ScaleHalf(e);
  }

  /**
   * A value that is already m * 10^e with an m of places + 1 digits comes back
   * from from_float unchanged.
   */
  lemma FromFloatExact(f: Fixed, places: nat)
    requires Pow10Nat(places) <= f.mantissa < Pow10Nat(places + 1)
    ensures FromFloat(AsFloat(f), places) == Success(f)
  {
    var m, e := f.mantissa, f.exponent;
    var val := AsFloat(f);
    assert Pow10(places + e) <= val < Pow10(places + 1 + e) by {
      Pow10OfNat(places);
      Pow10OfNat(places + 1);
      ScaleMonotone(Pow10(places), m as real, e);
      ScaleMonotone(m as real, Pow10(places + 1), e);
      ScaleAdd(1.0, places, e);
      ScaleAdd(1.0, places + 1, e);
    }
    FloorLog10Unique(val, e + places);
    assert Scale(val, -e) == m as real by {
      ScaleAdd(m as real, e, -e);
    }
    RoundHalfEvenOfInt(m);
  }

  /**
   * Renormalising with the same places is idempotent, except that a carried
   * mantissa 10^(places+1) becomes 10^places one exponent higher.
   */
  lemma FromFloatRenormalise(val: real, places: nat)
    requires val > 0.0
    ensures var f := FromFloat(val, places).value;
      FromFloat(AsFloat(f), places) ==
        if f.mantissa < Pow10Nat(places + 1) then Success(f)
        else Success(Fixed(Pow10Nat(places), f.exponent + 1))
  {
    var f := FromFloat(val, places).value;
    FromFloatBounds(val, places);
    if f.mantissa < Pow10Nat(places + 1) {
      FromFloatExact(f, places);
    } else {
      var g := Fixed(Pow10Nat(places), f.exponent + 1);
      assert AsFloat(g) == AsFloat(f) by {
        ScaleNat(Pow10Nat(places), 1);
        ScaleAdd(Pow10Nat(places) as real, 1, f.exponent);
      }
      FromFloatExact(g, places);
    }
  }
}
