/**
 * `ResistorValue` from resistor.py: a resistance held as a `Fixed`, built
 * from a number or from colour band names, turned back into band names, and
 * shown as text with an SI prefix.
 */
module Resistor {
  import opened Wrappers
  import opened Decimal
  import opened Colors
  import FixedPoint

  type Fixed = FixedPoint.Fixed

  datatype ResistorValue = ResistorValue(fixed: Fixed)

  /**
   * The `value` property: the resistance in ohms, mantissa * 10^exponent,
   * which has the sign of the mantissa.
   */
  function Value(rv: ResistorValue): (r: real)
    ensures r > 0.0 <==> rv.fixed.mantissa > 0
    ensures r == 0.0 <==> rv.fixed.mantissa == 0
    ensures rv.fixed.exponent >= 0 ==> r == (rv.fixed.mantissa * Pow10Nat(rv.fixed.exponent)) as real
    ensures rv.fixed.exponent < 0 ==> r == rv.fixed.mantissa as real / Pow10Nat(-rv.fixed.exponent) as real
  {
    FixedPoint.AsFloatExact(rv.fixed);
    FixedPoint.AsFloat(rv.fixed)
  }

  /**
   * `ResistorValue.from_float`: the value rounded to a three-digit mantissa.
   * It fails with a domain error exactly for a value that is not positive;
   * otherwise the exponent is floor(log10 val) - 2, the mantissa has three
   * digits (1000 only on a carry, when val / 10^exponent is at least 999.5)
   * and the stored value is within half a unit of the third digit.
   */
  function FromFloat(val: real): (r: Result<ResistorValue>)
    ensures r.Failure? <==> val <= 0.0
    ensures r.Failure? ==> r.error == MathDomainError(val)
    ensures r.Success? ==>
      r.value.fixed.exponent == FloorLog10(val) - 2 &&
      100 <= r.value.fixed.mantissa <= 1000 &&
      (r.value.fixed.mantissa == 1000 ==> Scale(val, -r.value.fixed.exponent) >= 999.5) &&
      Abs(Value(r.value) - val) <= Pow10(r.value.fixed.exponent) / 2.0
  {
    var f :- FixedPoint.FromFloat(val, 2);
    FixedPoint.FromFloatScaled(val, 2);
    FixedPoint.FromFloatBounds(val, 2);
    assert Pow10Nat(3) == 1000;
    Success(ResistorValue(f))
  }

  /**
   * `ResistorValue.from_three_bands`: two digit colours and a multiplier colour.
   * It succeeds exactly when all names are known; the first unknown name, in
   * argument order, is the KeyError. The mantissa is the two-digit number the
   * digit codes spell, 0..99.
   */
  function FromThreeBands(first: string, second: string, exponent: string): (r: Result<ResistorValue>)
    ensures r.Success? <==>
      ValueColorCode(first).Success? && ValueColorCode(second).Success? && ExponentColorCode(exponent).Success?
    ensures r.Failure? ==>
      r.error == KeyError(if ValueColorCode(first).Failure? then first
                          else if ValueColorCode(second).Failure? then second
                          else exponent)
    ensures r.Success? ==>
      r.value.fixed == FixedPoint.Fixed(ValueColorCode(first).value * 10 + ValueColorCode(second).value,
                                        ExponentColorCode(exponent).value) &&
      0 <= r.value.fixed.mantissa <= 99 && -3 <= r.value.fixed.exponent <= 7
  {
    var a :- ValueColorCode(first);
    var b :- ValueColorCode(second);
    var e :- ExponentColorCode(exponent);
    Success(ResistorValue(FixedPoint.Fixed(a * 10 + b, e)))
  }

  /**
   * `ResistorValue.from_four_bands`: three digit colours and a multiplier colour.
   * It succeeds exactly when all names are known; the first unknown name, in
   * argument order, is the KeyError. The mantissa is the three-digit number the
   * digit codes spell, 0..999.
   */
  function FromFourBands(first: string, second: string, third: string, exponent: string): (r: Result<ResistorValue>)
    ensures r.Success? <==>
      ValueColorCode(first).Success? && ValueColorCode(second).Success? &&
      ValueColorCode(third).Success? && ExponentColorCode(exponent).Success?
    ensures r.Failure? ==>
      r.error == KeyError(if ValueColorCode(first).Failure? then first
                          else if ValueColorCode(second).Failure? then second
                          else if ValueColorCode(third).Failure? then third
                          else exponent)
    ensures r.Success? ==>
      r.value.fixed == FixedPoint.Fixed(ValueColorCode(first).value * 100 + ValueColorCode(second).value * 10 +
                                        ValueColorCode(third).value, ExponentColorCode(exponent).value) &&
      0 <= r.value.fixed.mantissa <= 999 && -3 <= r.value.fixed.exponent <= 7
  {
    var a :- ValueColorCode(first);
    var b :- ValueColorCode(second);
    var c :- ValueColorCode(third);
    var e :- ExponentColorCode(exponent);
    Success(ResistorValue(FixedPoint.Fixed(a * 100 + b * 10 + c, e)))
  }

  /**
   * The naming half of `as_three_bands`: the tens and the units digit of the
   * re-rounded mantissa as value colours, its exponent as a multiplier colour.
   * It succeeds exactly for a mantissa 0..99 and an exponent -3..7; otherwise
   * the first lookup to fail, the tens digit before the exponent, is the error.
   */
  function ThreeBandNames(dec: Fixed): (r: Result<(string, string, string)>)
    ensures r.Success? <==> 0 <= dec.mantissa <= 99 && -3 <= dec.exponent <= 7
    ensures !(0 <= dec.mantissa <= 99) ==> r == Failure(InvalidEnumValue((dec.mantissa / 10) as real))
    ensures 0 <= dec.mantissa <= 99 && !(-3 <= dec.exponent <= 7) ==>
      r == Failure(InvalidEnumValue(dec.exponent as real))
  {
    var first :- ValueColorName(dec.mantissa / 10);
    // a units digit is always 0..9, so this lookup cannot fail
    var second := ValueColorName(dec.mantissa % 10).value;
    var exponent :- ExponentColorName(dec.exponent);
    Success((first, second, exponent))
  }

  /**
   * `ResistorValue.as_three_bands`: the value re-rounded to two digits, then
   * named. A value that is not positive is a domain error; otherwise the
   * re-rounded d is within half a unit of the value, its mantissa is 10..100,
   * and the result is that of naming d.
   */
  function AsThreeBands(rv: ResistorValue): (r: Result<(string, string, string)>)
    ensures Value(rv) <= 0.0 ==> r == Failure(MathDomainError(Value(rv)))
    ensures Value(rv) > 0.0 ==>
      var d := FixedPoint.FromFloat(Value(rv), 1).value;
      10 <= d.mantissa <= 100 &&
      Abs(FixedPoint.AsFloat(d) - Value(rv)) <= Pow10(d.exponent) / 2.0 &&
      r == ThreeBandNames(d)
  {
    var dec :- FixedPoint.FromFloat(Value(rv), 1);
    FixedPoint.FromFloatBounds(Value(rv), 1);
    assert Pow10Nat(1) == 10 && Pow10Nat(2) == 100;
    ThreeBandNames(dec)
  }

  /**
   * The naming half of `as_four_bands`: hundreds, tens and units of the
   * re-rounded mantissa as value colours, its exponent as a multiplier colour.
   * It succeeds exactly for a mantissa 0..999 and an exponent -3..7; otherwise
   * the first lookup to fail, the hundreds digit before the exponent, is the error.
   */
  function FourBandNames(fixed: Fixed): (r: Result<(string, string, string, string)>)
    ensures r.Success? <==> 0 <= fixed.mantissa <= 999 && -3 <= fixed.exponent <= 7
    ensures !(0 <= fixed.mantissa <= 999) ==> r == Failure(InvalidEnumValue((fixed.mantissa / 100) as real))
    ensures 0 <= fixed.mantissa <= 999 && !(-3 <= fixed.exponent <= 7) ==>
      r == Failure(InvalidEnumValue(fixed.exponent as real))
  {
    var q := fixed.mantissa / 100;
    var first :- ValueColorName(q);
    // a tens and a units digit are always 0..9, so these lookups cannot fail
    var second := ValueColorName((fixed.mantissa - q * 100) / 10).value;
    var third := ValueColorName(fixed.mantissa % 10).value;
    var exponent :- ExponentColorName(fixed.exponent);
    Success((first, second, third, exponent))
  }

  /**
   * `ResistorValue.as_four_bands`: the value re-rounded to three digits, then
   * named. A value that is not positive is a domain error; otherwise the
   * re-rounded d is within half a unit of the value, its mantissa is 100..1000,
   * and the result is that of naming d.
   */
  function AsFourBands(rv: ResistorValue): (r: Result<(string, string, string, string)>)
    ensures Value(rv) <= 0.0 ==> r == Failure(MathDomainError(Value(rv)))
    ensures Value(rv) > 0.0 ==>
      var d := FixedPoint.FromFloat(Value(rv), 2).value;
      100 <= d.mantissa <= 1000 &&
      Abs(FixedPoint.AsFloat(d) - Value(rv)) <= Pow10(d.exponent) / 2.0 &&
      r == FourBandNames(d)
  {
    var fixed :- FixedPoint.FromFloat(Value(rv), 2);
    FixedPoint.FromFloatBounds(Value(rv), 2);
    assert Pow10Nat(2) == 100 && Pow10Nat(3) == 1000;
    FourBandNames(fixed)
  }

  /** The SI prefixes, largest exponent first, as `si_prefixer` visits them. */
  const SiPrefixes: seq<(int, string)> := [(6, "M"), (3, "k")]

  /**
   * The first prefix from index i on whose `floor(value / 10**exp)` is non-zero,
   * or None when that floor is zero for every one of them.
   */
  function FindPrefixFrom(ps: seq<(int, string)>, value: real, i: nat): (r: Option<(int, string)>)
    requires i <= |ps|
    ensures r.None? <==> forall j :: i <= j < |ps| ==> Scale(value, -ps[j].0).Floor == 0
    ensures r.Some? ==>
      exists j :: i <= j < |ps| && ps[j] == r.value && Scale(value, -ps[j].0).Floor != 0 &&
        forall k :: i <= k < j ==> Scale(value, -ps[k].0).Floor == 0
    decreases |ps| - i
  {
    if i == |ps| then None
    else if Scale(value, -ps[i].0).Floor != 0 then Some(ps[i])
    else FindPrefixFrom(ps, value, i + 1)
  }

  /**
   * `si_prefixer`: the scaled value and its prefix, or a ValueError when no
   * prefix fits. M comes first, so it is taken for a value of at least a
   * million and for any negative value; k for 1000 up to a million; and 0 up
   * to 1000 has no prefix.
   */
  function SiPrefixer(value: real): (r: Result<(real, string)>)
    ensures r.Failure? <==> 0.0 <= value < 1000.0
    ensures r.Failure? ==> r.error == PrefixNotFound(value)
    ensures value >= 1000000.0 || value < 0.0 ==> r == Success((value / 1000000.0, "M"))
    ensures 1000.0 <= value < 1000000.0 ==> r == Success((value / 1000.0, "k"))
  {
    SiPrefixFloors(value);
    match FindPrefixFrom(SiPrefixes, value, 0)
    case Some((exp, prefix)) => Success((Scale(value, -exp), prefix))
    case None => Failure(PrefixNotFound(value))
  }

  /**
   * `ResistorValue.__str__`, with `{:g}` formatting as the parameter fmt:
   * the scaled value, a space, the prefix and the ohm sign, or, when no prefix
   * fits, the plain value followed directly by the ohm sign.
   */
  function Str(rv: ResistorValue, fmt: real -> string): (r: string)
    ensures var v := Value(rv);
      r == if v >= 1000000.0 || v < 0.0 then fmt(v / 1000000.0) + " MΩ"
           else if v >= 1000.0 then fmt(v / 1000.0) + " kΩ"
           else fmt(v) + "Ω"
  {
    match SiPrefixer(Value(rv))
    case Success((scaled, prefix)) => fmt(scaled) + " " + prefix + "Ω"
    case Failure(_) => fmt(Value(rv)) + "Ω"
  }

  // Decoding to bands

  /** The decimal digits of a * 100 + b * 10 + c, as the band decoders split them. */
  lemma SplitDigits(a: int, b: int, c: int)
    requires 0 <= a <= 9 && 0 <= b <= 9 && 0 <= c <= 9
    ensures var m := a * 100 + b * 10 + c;
      m / 100 == a && (m - a * 100) / 10 == b && m % 10 == c && (b * 10 + c) / 10 == b
  {
    var m := a * 100 + b * 10 + c;
    assert m == (a * 10 + b) * 10 + c;
  }

  /**
   * The split `as_four_bands` makes of a mantissa below 1000 (`m // 100`, then
   * `(m - first * 100) // 10`, then `m % 10`) gives three digits that recombine to it, and the
   * split `as_three_bands` makes of one below 100 gives two.
   */
  lemma MantissaDigits(m: int)
    requires 0 <= m <= 999
    ensures var a, b, c := m / 100, (m - m / 100 * 100) / 10, m % 10;
      0 <= a <= 9 && 0 <= b <= 9 && 0 <= c <= 9 && a * 100 + b * 10 + c == m
    ensures m <= 99 ==> 0 <= m / 10 <= 9 && m / 10 * 10 + m % 10 == m
  {
  }

  /** Naming a mantissa whose digits are a, b with exponent e gives the colours of a, b and e. */
  lemma ThreeBandNamesOf(dec: Fixed, a: int, b: int)
    requires dec.mantissa / 10 == a && dec.mantissa % 10 == b
    requires 0 <= a <= 9 && 0 <= b <= 9 && -3 <= dec.exponent <= 7
    ensures ThreeBandNames(dec) ==
      Success((ValueColorName(a).value, ValueColorName(b).value, ExponentColorName(dec.exponent).value))
  {
  }

  /** Naming a mantissa whose digits are a, b, c with exponent e gives the colours of a, b, c and e. */
  lemma FourBandNamesOf(fixed: Fixed, a: int, b: int, c: int)
    requires fixed.mantissa / 100 == a && (fixed.mantissa - fixed.mantissa / 100 * 100) / 10 == b
    requires fixed.mantissa % 10 == c
    requires 0 <= a <= 9 && 0 <= b <= 9 && 0 <= c <= 9 && -3 <= fixed.exponent <= 7
    ensures FourBandNames(fixed) ==
      Success((ValueColorName(a).value, ValueColorName(b).value, ValueColorName(c).value,
               ExponentColorName(fixed.exponent).value))
  {
    FourBandNamesOfNames(fixed, ValueColorName(a).value, ValueColorName(b).value, ValueColorName(c).value,
                         ExponentColorName(fixed.exponent).value);
  }

  /** When each of the four lookups `as_four_bands` makes succeeds, the names are their results. */
  lemma FourBandNamesOfNames(fixed: Fixed, first: string, second: string, third: string, exponent: string)
    requires ValueColorName(fixed.mantissa / 100) == Success(first)
    requires ValueColorName((fixed.mantissa - fixed.mantissa / 100 * 100) / 10) == Success(second)
    requires ValueColorName(fixed.mantissa % 10) == Success(third)
    requires ExponentColorName(fixed.exponent) == Success(exponent)
    ensures FourBandNames(fixed) == Success((first, second, third, exponent))
  {
  }

  /** Naming a two-digit mantissa ab with exponent e gives the colours of a, b and e. */
  lemma ThreeBandNamesDigits(a: int, b: int, e: int)
    requires 0 <= a <= 9 && 0 <= b <= 9 && -3 <= e <= 7
    ensures ThreeBandNames(FixedPoint.Fixed(a * 10 + b, e)) ==
      Success((ValueColorName(a).value, ValueColorName(b).value, ExponentColorName(e).value))
  {
    SplitDigits(0, a, b);
    ThreeBandNamesOf(FixedPoint.Fixed(a * 10 + b, e), a, b);
  }

  /** Naming a three-digit mantissa abc with exponent e gives the colours of a, b, c and e. */
  lemma FourBandNamesDigits(a: int, b: int, c: int, e: int)
    requires 0 <= a <= 9 && 0 <= b <= 9 && 0 <= c <= 9 && -3 <= e <= 7
    ensures FourBandNames(FixedPoint.Fixed(a * 100 + b * 10 + c, e)) ==
      Success((ValueColorName(a).value, ValueColorName(b).value, ValueColorName(c).value, ExponentColorName(e).value))
  {
    SplitDigits(a, b, c);
    FourBandNamesOf(FixedPoint.Fixed(a * 100 + b * 10 + c, e), a, b, c);
  }

  /** A value that already has a two-digit mantissa is named without re-rounding. */
  lemma AsThreeBandsExact(f: Fixed)
    requires 10 <= f.mantissa <= 99
    ensures AsThreeBands(ResistorValue(f)) == ThreeBandNames(f)
  {
    assert Pow10Nat(1) == 10 && Pow10Nat(2) == 100;
    FixedPoint.FromFloatExact(f, 1);
  }

  /** A value that already has a three-digit mantissa is named without re-rounding. */
  lemma AsFourBandsExact(f: Fixed)
    requires 100 <= f.mantissa <= 999
    ensures AsFourBands(ResistorValue(f)) == FourBandNames(f)
  {
    assert Pow10Nat(2) == 100 && Pow10Nat(3) == 1000;
    FixedPoint.FromFloatExact(f, 2);
  }

  /** Digits a, b (a not 0) with an exponent in -3..7 come back from `as_three_bands` as their colours. */
  lemma AsThreeBandsDigits(a: int, b: int, e: int)
    requires 1 <= a <= 9 && 0 <= b <= 9 && -3 <= e <= 7
    ensures AsThreeBands(ResistorValue(FixedPoint.Fixed(a * 10 + b, e))) ==
      Success((ValueColorName(a).value, ValueColorName(b).value, ExponentColorName(e).value))
  {
    AsThreeBandsExact(FixedPoint.Fixed(a * 10 + b, e));
    ThreeBandNamesDigits(a, b, e);
  }

  /** Digits a, b, c (a not 0) with an exponent in -3..7 come back from `as_four_bands` as their colours. */
  lemma AsFourBandsDigits(a: int, b: int, c: int, e: int)
    requires 1 <= a <= 9 && 0 <= b <= 9 && 0 <= c <= 9 && -3 <= e <= 7
    ensures AsFourBands(ResistorValue(FixedPoint.Fixed(a * 100 + b * 10 + c, e))) ==
      Success((ValueColorName(a).value, ValueColorName(b).value, ValueColorName(c).value, ExponentColorName(e).value))
  {
    AsFourBandsExact(FixedPoint.Fixed(a * 100 + b * 10 + c, e));
    FourBandNamesDigits(a, b, c, e);
  }

  /** The value decoded from names with codes a, b (a not 0) and e comes back as the colours of a, b and e. */
  lemma ThreeBandsRoundTripCodes(first: string, second: string, exponent: string, rv: ResistorValue,
                                 a: int, b: int, e: int)
    requires FromThreeBands(first, second, exponent) == Success(rv)
    requires ValueColorCode(first) == Success(a) && ValueColorCode(second) == Success(b)
    requires ExponentColorCode(exponent) == Success(e)
    requires 1 <= a <= 9 && 0 <= b <= 9 && -3 <= e <= 7
    ensures AsThreeBands(rv) == Success((ValueColorName(a).value, ValueColorName(b).value, ExponentColorName(e).value))
  {
    assert rv == ResistorValue(FixedPoint.Fixed(a * 10 + b, e));
    AsThreeBandsDigits(a, b, e);
  }

  /** The value decoded from names with codes a, b, c (a not 0) and e comes back as the colours of a, b, c and e. */
  lemma FourBandsRoundTripCodes(first: string, second: string, third: string, exponent: string, rv: ResistorValue,
                                a: int, b: int, c: int, e: int)
    requires FromFourBands(first, second, third, exponent) == Success(rv)
    requires ValueColorCode(first) == Success(a) && ValueColorCode(second) == Success(b)
    requires ValueColorCode(third) == Success(c) && ExponentColorCode(exponent) == Success(e)
    requires 1 <= a <= 9 && 0 <= b <= 9 && 0 <= c <= 9 && -3 <= e <= 7
    ensures AsFourBands(rv) ==
      Success((ValueColorName(a).value, ValueColorName(b).value, ValueColorName(c).value, ExponentColorName(e).value))
  {
    assert rv == ResistorValue(FixedPoint.Fixed(a * 100 + b * 10 + c, e));
    AsFourBandsDigits(a, b, c, e);
  }

  /**
   * Valid names whose first band is not black come back from `as_three_bands`
   * as their canonical names.
   */
  lemma ThreeBandsRoundTrip(first: string, second: string, exponent: string, rv: ResistorValue)
    requires FromThreeBands(first, second, exponent) == Success(rv)
    requires ValueColorCode(first) != Success(0)
    ensures AsThreeBands(rv) == Success((CanonicalName(first), CanonicalName(second), exponent))
  {
    var a, b, e := ValueColorCode(first).value, ValueColorCode(second).value, ExponentColorCode(exponent).value;
    assert ValueColorCode(first).Success? && ValueColorCode(second).Success? && ExponentColorCode(exponent).Success?;
    assert a != 0 by {
      assert ValueColorCode(first) == Success(a);
    }
    assert ValueColorName(a) == Success(CanonicalName(first)) && 0 <= a <= 9 by {
      ValueColorNameRoundTrip(first);
    }
    assert ValueColorName(b) == Success(CanonicalName(second)) && 0 <= b <= 9 by {
      ValueColorNameRoundTrip(second);
    }
    assert ExponentColorName(e) == Success(exponent) && -3 <= e <= 7 by {
      ExponentColorNameRoundTrip(exponent);
    }
    ThreeBandsRoundTripCodes(first, second, exponent, rv, a, b, e);
  }

  /**
   * Valid names whose first band is not black come back from `as_four_bands`
   * as their canonical names.
   */
  lemma FourBandsRoundTrip(first: string, second: string, third: string, exponent: string, rv: ResistorValue)
    requires FromFourBands(first, second, third, exponent) == Success(rv)
    requires ValueColorCode(first) != Success(0)
    ensures AsFourBands(rv) == Success((CanonicalName(first), CanonicalName(second), CanonicalName(third), exponent))
  {
    var a, b, c := ValueColorCode(first).value, ValueColorCode(second).value, ValueColorCode(third).value;
    var e := ExponentColorCode(exponent).value;
    assert ValueColorCode(first).Success? && ValueColorCode(second).Success? &&
           ValueColorCode(third).Success? && ExponentColorCode(exponent).Success?;
    assert a != 0 by {
      assert ValueColorCode(first) == Success(a);
    }
    assert ValueColorName(a) == Success(CanonicalName(first)) && 0 <= a <= 9 by {
      ValueColorNameRoundTrip(first);
    }
    assert ValueColorName(b) == Success(CanonicalName(second)) && 0 <= b <= 9 by {
      ValueColorNameRoundTrip(second);
    }
    assert ValueColorName(c) == Success(CanonicalName(third)) && 0 <= c <= 9 by {
      ValueColorNameRoundTrip(third);
    }
    assert ExponentColorName(e) == Success(exponent) && -3 <= e <= 7 by {
      ExponentColorNameRoundTrip(exponent);
    }
    FourBandsRoundTripCodes(first, second, third, exponent, rv, a, b, c, e);
  }

  /** The colours of digits a, b and exponent e decode to the mantissa ab with exponent e. */
  lemma FromThreeBandsOfNames(a: int, b: int, e: int)
    requires 0 <= a <= 9 && 0 <= b <= 9 && -3 <= e <= 7
    ensures FromThreeBands(ValueColorName(a).value, ValueColorName(b).value, ExponentColorName(e).value) ==
      Success(ResistorValue(FixedPoint.Fixed(a * 10 + b, e)))
  {
    ValueColorCodeRoundTrip(a);
    ValueColorCodeRoundTrip(b);
    ExponentColorCodeRoundTrip(e);
    FromThreeBandsOfCodes(ValueColorName(a).value, ValueColorName(b).value, ExponentColorName(e).value, a, b, e);
  }

  /** Names whose codes are a, b and e decode to the mantissa ab with exponent e. */
  lemma FromThreeBandsOfCodes(first: string, second: string, exponent: string, a: int, b: int, e: int)
    requires ValueColorCode(first) == Success(a) && ValueColorCode(second) == Success(b)
    requires ExponentColorCode(exponent) == Success(e)
    ensures FromThreeBands(first, second, exponent) == Success(ResistorValue(FixedPoint.Fixed(a * 10 + b, e)))
  {
  }

  /** The colours of digits a, b, c and exponent e decode to the mantissa abc with exponent e. */
  lemma FromFourBandsOfNames(a: int, b: int, c: int, e: int)
    requires 0 <= a <= 9 && 0 <= b <= 9 && 0 <= c <= 9 && -3 <= e <= 7
    ensures FromFourBands(ValueColorName(a).value, ValueColorName(b).value, ValueColorName(c).value,
                          ExponentColorName(e).value) ==
      Success(ResistorValue(FixedPoint.Fixed(a * 100 + b * 10 + c, e)))
  {
    ValueColorCodeRoundTrip(a);
    ValueColorCodeRoundTrip(b);
    ValueColorCodeRoundTrip(c);
    ExponentColorCodeRoundTrip(e);
    FromFourBandsOfCodes(ValueColorName(a).value, ValueColorName(b).value, ValueColorName(c).value,
                         ExponentColorName(e).value, a, b, c, e);
  }

  /** Names whose codes are a, b, c and e decode to the mantissa abc with exponent e. */
  lemma FromFourBandsOfCodes(first: string, second: string, third: string, exponent: string,
                             a: int, b: int, c: int, e: int)
    requires ValueColorCode(first) == Success(a) && ValueColorCode(second) == Success(b)
    requires ValueColorCode(third) == Success(c) && ExponentColorCode(exponent) == Success(e)
    ensures FromFourBands(first, second, third, exponent) == Success(ResistorValue(FixedPoint.Fixed(a * 100 + b * 10 + c, e)))
  {
  }

  /** Whatever `as_three_bands` manages to name decodes back to exactly the value it named. */
  lemma ThreeBandNamesDecode(d: Fixed)
    ensures ThreeBandNames(d).Success? ==>
      var names := ThreeBandNames(d).value;
      FromThreeBands(names.0, names.1, names.2) == Success(ResistorValue(d))
  {
    var a, b := d.mantissa / 10, d.mantissa % 10;
    if ThreeBandNames(d).Success? {
      assert d == FixedPoint.Fixed(a * 10 + b, d.exponent);
      ThreeBandNamesDigits(a, b, d.exponent);
      FromThreeBandsOfNames(a, b, d.exponent);
    }
  }

  /** Whatever `as_four_bands` manages to name decodes back to exactly the value it named. */
  lemma FourBandNamesDecode(d: Fixed)
    ensures FourBandNames(d).Success? ==>
      var names := FourBandNames(d).value;
      FromFourBands(names.0, names.1, names.2, names.3) == Success(ResistorValue(d))
  {
    if FourBandNames(d).Success? {
      var m := d.mantissa;
      MantissaDigits(m);
      var a, b, c := m / 100, (m - m / 100 * 100) / 10, m % 10;
      assert d == FixedPoint.Fixed(a * 100 + b * 10 + c, d.exponent);
      FourBandDigitsDecode(a, b, c, d.exponent);
    }
  }

  /** The names of the digits a, b, c and the exponent e decode to abc * 10^e. */
  lemma FourBandDigitsDecode(a: int, b: int, c: int, e: int)
    requires 0 <= a <= 9 && 0 <= b <= 9 && 0 <= c <= 9 && -3 <= e <= 7
    ensures var d := FixedPoint.Fixed(a * 100 + b * 10 + c, e);
      var names := FourBandNames(d).value;
      FourBandNames(d).Success? &&
      FromFourBands(names.0, names.1, names.2, names.3) == Success(ResistorValue(d))
  {
    FourBandNamesDigits(a, b, c, e);
    FromFourBandsOfNames(a, b, c, e);
  }

  /**
   * A value with a two-digit mantissa and an exponent in -3..7 is encoded by
   * `as_three_bands` and decoded by `from_three_bands` back to itself.
   */
  lemma ThreeBandsValueRoundTrip(f: Fixed)
    requires 10 <= f.mantissa <= 99 && -3 <= f.exponent <= 7
    ensures AsThreeBands(ResistorValue(f)).Success?
    ensures var names := AsThreeBands(ResistorValue(f)).value;
      FromThreeBands(names.0, names.1, names.2) == Success(ResistorValue(f))
  {
    AsThreeBandsExact(f);
    ThreeBandNamesDecode(f);
  }

  /**
   * A value with a three-digit mantissa and an exponent in -3..7 is encoded by
   * `as_four_bands` and decoded by `from_four_bands` back to itself.
   */
  lemma FourBandsValueRoundTrip(f: Fixed)
    requires 100 <= f.mantissa <= 999 && -3 <= f.exponent <= 7
    ensures AsFourBands(ResistorValue(f)).Success?
    ensures var names := AsFourBands(ResistorValue(f)).value;
      FromFourBands(names.0, names.1, names.2, names.3) == Success(ResistorValue(f))
  {
    AsFourBandsExact(f);
    FourBandNamesDecode(f);
  }

  /**
   * A leading black band contributes nothing: black, x, y decodes to the
   * one-digit mantissa code(x) with exponent expcode(y).
   */
  lemma LeadingBlackDecode(second: string, exponent: string, rv: ResistorValue)
    requires FromThreeBands("black", second, exponent) == Success(rv)
    ensures ValueColorCode(second).Success? && ExponentColorCode(exponent).Success?
    ensures rv == ResistorValue(FixedPoint.Fixed(ValueColorCode(second).value, ExponentColorCode(exponent).value))
  {
    assert ValueColorCode("black") == Success(0);
  }

  /**
   * So a leading black band does not survive the round trip: the one-digit
   * mantissa 0 (black, black) is a domain error, and b > 0 re-rounds to b0 one
   * exponent lower, named x, black, exponent - 1, or `ExponentColor(-4)` fails for pink.
   */
  lemma LeadingBlackReencode(b: int, e: int)
    requires 0 <= b <= 9 && -3 <= e <= 7
    ensures b == 0 ==> AsThreeBands(ResistorValue(FixedPoint.Fixed(b, e))) == Failure(MathDomainError(0.0))
    ensures b != 0 && e == -3 ==> AsThreeBands(ResistorValue(FixedPoint.Fixed(b, e))) == Failure(InvalidEnumValue(-4.0))
    ensures b != 0 && e != -3 ==>
      AsThreeBands(ResistorValue(FixedPoint.Fixed(b, e))) ==
        Success((ValueColorName(b).value, "black", ExponentColorName(e - 1).value))
  {
    if b == 0 {
      return;
    }
    var g := FixedPoint.Fixed(b * 10, e - 1);
    assert AsThreeBands(ResistorValue(FixedPoint.Fixed(b, e))) == AsThreeBands(ResistorValue(g)) by {
      ScaleNat(b, 1);
      ScaleAdd(b as real, 1, e - 1);
    }
    AsThreeBandsExact(g);
    SplitDigits(0, b, 0);
    assert ValueColorName(0) == Success("black");
    if e != -3 {
      ThreeBandNamesOf(g, b, 0);
    }
  }

  /** Four black digit bands are the value 0, which `as_four_bands` (and `as_three_bands`) reject. */
  lemma FourBandsAllBlack(exponent: string, rv: ResistorValue)
    requires FromFourBands("black", "black", "black", exponent) == Success(rv)
    ensures AsFourBands(rv) == Failure(MathDomainError(0.0))
    ensures AsThreeBands(rv) == Failure(MathDomainError(0.0))
  {
    assert ValueColorCode("black") == Success(0);
    assert rv.fixed.mantissa == 0;
  }

  /**
   * Rounding carries in `as_three_bands`: 996 ohms re-rounds to 100 * 10^1,
   * and `ValueColor(10)` fails.
   */
  lemma ThreeBandsCarry()
    ensures AsThreeBands(ResistorValue(FixedPoint.Fixed(996, 0))) == Failure(InvalidEnumValue(10.0))
  {
    assert Value(ResistorValue(FixedPoint.Fixed(996, 0))) == 996.0;
    assert FixedPoint.FromFloat(996.0, 1) == Success(FixedPoint.Fixed(100, 1)) by {
      Pow10OfNat(2);
      Pow10OfNat(3);
      FloorLog10Unique(996.0, 2);
      ScaleDown(996.0, 1);
    }
  }

  /** The same 996 ohms is white, white, blue, black, and has four bands without trouble. */
  lemma FourBandsOf996()
    ensures FromFourBands("white", "white", "blue", "black") == Success(ResistorValue(FixedPoint.Fixed(996, 0)))
    ensures AsFourBands(ResistorValue(FixedPoint.Fixed(996, 0))) == Success(("white", "white", "blue", "black"))
  {
    var rv := ResistorValue(FixedPoint.Fixed(996, 0));
    assert FromFourBands("white", "white", "blue", "black") == Success(rv) by {
      Codes996();
      FromFourBandsOfCodes("white", "white", "blue", "black", 9, 9, 6, 0);
    }
    assert ValueColorCode("white") != Success(0) by {
      Codes996();
    }
    FourBandsRoundTrip("white", "white", "blue", "black", rv);
  }

  lemma Codes996()
    ensures ValueColorCode("white") == Success(9) && ValueColorCode("blue") == Success(6)
    ensures ExponentColorCode("black") == Success(0)
  {
  }

  /** 1000 ohms is stored without a carry, as mantissa 100 at exponent 1. */
  lemma FromFloatThousand()
    ensures FromFloat(1000.0) == Success(ResistorValue(FixedPoint.Fixed(100, 1)))
  {
    Pow10OfNat(3);
    Pow10OfNat(4);
    FloorLog10Unique(1000.0, 3);
    ScaleDown(1000.0, 1);
    assert Pow10Nat(1) == 10;
    RoundHalfEvenOfInt(100);
  }

  /** `from_float` can itself carry: 999.6 becomes mantissa 1000. */
  lemma FromFloatCarry()
    ensures FromFloat(999.6) == Success(ResistorValue(FixedPoint.Fixed(1000, 0)))
  {
    Pow10OfNat(2);
    Pow10OfNat(3);
    FloorLog10Unique(999.6, 2);
  }

  /**
   * `as_four_bands` re-rounds a carried mantissa 1000 at 10^e to 100 at 10^(e+1),
   * which names fine as brown, black, black and the colour of e + 1.
   */
  lemma FourBandsAfterCarry(e: int)
    requires -3 <= e + 1 <= 7
    ensures AsFourBands(ResistorValue(FixedPoint.Fixed(1000, e))) ==
      Success(("brown", "black", "black", ExponentColorName(e + 1).value))
  {
    CarriedBands(e);
    HundredBands(e);
    BrownBlackNames();
  }

  /** 1000 * 10^e and 100 * 10^(e+1) are the same value, so they get the same bands. */
  lemma CarriedBands(e: int)
    ensures AsFourBands(ResistorValue(FixedPoint.Fixed(1000, e))) == AsFourBands(ResistorValue(FixedPoint.Fixed(100, e + 1)))
  {
    assert Value(ResistorValue(FixedPoint.Fixed(1000, e))) == Value(ResistorValue(FixedPoint.Fixed(100, e + 1))) by {
      ScaleNat(100, 1);
      ScaleAdd(100.0, 1, e);
    }
    SameValueSameBands(ResistorValue(FixedPoint.Fixed(1000, e)), ResistorValue(FixedPoint.Fixed(100, e + 1)));
  }

  lemma HundredBands(e: int)
    requires -3 <= e + 1 <= 7
    ensures AsFourBands(ResistorValue(FixedPoint.Fixed(100, e + 1))) ==
      Success((ValueColorName(1).value, ValueColorName(0).value, ValueColorName(0).value, ExponentColorName(e + 1).value))
  {
    AsFourBandsDigits(1, 0, 0, e + 1);
  }

  /** The band decoders look only at the value. */
  lemma SameValueSameBands(r: ResistorValue, s: ResistorValue)
    requires Value(r) == Value(s)
    ensures AsThreeBands(r) == AsThreeBands(s) && AsFourBands(r) == AsFourBands(s)
  {
  }

  lemma BrownBlackNames()
    ensures ValueColorName(1) == Success("brown") && ValueColorName(0) == Success("black")
  {
  }

  /** A stored mantissa 9996 at 10^-1 (999.6 ohms) carries inside `as_four_bands`, and `ValueColor(10)` fails. */
  lemma FourBandsCarry()
    ensures AsFourBands(ResistorValue(FixedPoint.Fixed(9996, -1))) == Failure(InvalidEnumValue(10.0))
  {
    assert Value(ResistorValue(FixedPoint.Fixed(9996, -1))) == 999.6 by {
      assert Pow10Nat(1) == 10;
    }
    assert FixedPoint.FromFloat(999.6, 2) == Success(FixedPoint.Fixed(1000, 0)) by {
      Pow10OfNat(2);
      Pow10OfNat(3);
      FloorLog10Unique(999.6, 2);
    }
    assert FourBandNames(FixedPoint.Fixed(1000, 0)) == Failure(InvalidEnumValue(10.0));
  }

  // Text

  /**
   * The two floors `si_prefixer` tests: floor(value / 10^6) is non-zero for a
   * value of at least a million or a negative one, floor(value / 10^3) for a
   * value of at least 1000 or a negative one.
   */
  lemma SiPrefixFloors(value: real)
    ensures Scale(value, -6) == value / 1000000.0 && Scale(value, -3) == value / 1000.0
    ensures Scale(value, -6).Floor != 0 <==> value >= 1000000.0 || value < 0.0
    ensures Scale(value, -3).Floor != 0 <==> value >= 1000.0 || value < 0.0
  {
    ScaleDown(value, 6);
    ScaleDown(value, 3);
    assert Pow10Nat(3) == 1000 && Pow10Nat(6) == 1000000;
    var mega, kilo := value / 1000000.0, value / 1000.0;
    if value >= 1000000.0 {
      assert mega >= 1.0 && kilo >= 1.0;
    } else if value < 0.0 {
      assert mega < 0.0 && kilo < 0.0;
    } else {
      assert 0.0 <= mega < 1.0;
      if value >= 1000.0 {
        assert kilo >= 1.0;
      } else {
        assert 0.0 <= kilo < 1.0;
      }
    }
  }

  /**
   * On success the scaled value times 10^exp of its prefix is the value; for a
   * positive value it is at least 1, and below 1000 with the k prefix.
   */
  lemma SiPrefixerScaled(value: real)
    requires SiPrefixer(value).Success?
    ensures var (scaled, prefix) := SiPrefixer(value).value;
      scaled * (if prefix == "M" then 1000000.0 else 1000.0) == value &&
      (value > 0.0 ==> 1.0 <= scaled) &&
      (prefix == "k" ==> scaled < 1000.0)
  {
  }

  /** 4.7 kΩ (yellow violet red), 220Ω (red red brown), 2.2 MΩ (red red green) and 1 kΩ. */
  lemma StrExamples(fmt: real -> string)
    ensures Str(ResistorValue(FixedPoint.Fixed(47, 2)), fmt) == fmt(4.7) + " kΩ"
    ensures Str(ResistorValue(FixedPoint.Fixed(22, 1)), fmt) == fmt(220.0) + "Ω"
    ensures Str(ResistorValue(FixedPoint.Fixed(22, 5)), fmt) == fmt(2.2) + " MΩ"
    ensures Str(ResistorValue(FixedPoint.Fixed(100, 1)), fmt) == fmt(1.0) + " kΩ"
  {
    FixedPoint.AsFloatExact(FixedPoint.Fixed(47, 2));
    FixedPoint.AsFloatExact(FixedPoint.Fixed(22, 1));
    FixedPoint.AsFloatExact(FixedPoint.Fixed(22, 5));
    FixedPoint.AsFloatExact(FixedPoint.Fixed(100, 1));
    assert Pow10Nat(1) == 10 && Pow10Nat(2) == 100 && Pow10Nat(5) == 100000;
  }
}
