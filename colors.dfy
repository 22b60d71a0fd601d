/**
 * The three colour enums of resistor.py as member tables in declaration
 * order, with lookup by name and by code under Python `Enum` semantics.
 */
module Colors {
  import opened Wrappers
  import opened Enums

  /** `ValueColor`: digit colours 0..9; `grey` is an alias of `gray`. */
  const ValueColors: seq<Member<int>> := [
    Member("black", 0), Member("brown", 1), Member("red", 2), Member("orange", 3),
    Member("yellow", 4), Member("green", 5), Member("blue", 6), Member("violet", 7),
    Member("gray", 8), Member("grey", 8), Member("white", 9)]

  /** `ExponentColor`: multiplier colours for exponents -3..7. */
  const ExponentColors: seq<Member<int>> := [
    Member("black", 0), Member("brown", 1), Member("red", 2), Member("orange", 3),
    Member("yellow", 4), Member("green", 5), Member("blue", 6), Member("violet", 7),
    Member("gold", -1), Member("silver", -2), Member("pink", -3)]

  /** `TolerancePercentColor`: tolerance in percent; `grey` is an alias of `gray`. */
  const ToleranceColors: seq<Member<real>> := [
    Member("brown", 1.0), Member("red", 2.0), Member("green", 0.5), Member("blue", 0.25),
    Member("violet", 0.1), Member("gray", 0.05), Member("grey", 0.05), Member("gold", 5.0),
    Member("silver", 10.0), Member("none", 20.0)]

  /** `ValueColor[name]`: the member's value; an unknown name is a KeyError. */
  function ValueColorCode(name: string): (r: Result<int>)
    ensures r.Success? ==> 0 <= r.value <= 9
    ensures r.Failure? ==> r.error == KeyError(name)
  {
    OrFail(ByName(ValueColors, name), KeyError(name))
  }

  /** `ValueColor(code).name`: defined for the codes 0..9, a ValueError otherwise. */
  function ValueColorName(code: int): (r: Result<string>)
    ensures r.Success? <==> 0 <= code <= 9
    ensures r.Failure? ==> r.error == InvalidEnumValue(code as real)
  {
    IndexOfValueFromSpec(ValueColors, code, 0);
    assert 0 <= code <= 8 ==> ValueColors[code].value == code;
    assert code == 9 ==> ValueColors[10].value == code;
    OrFail(ByValue(ValueColors, code), InvalidEnumValue(code as real))
  }

  /** `ExponentColor[name]`: the member's value; an unknown name is a KeyError. */
  function ExponentColorCode(name: string): (r: Result<int>)
    ensures r.Success? ==> -3 <= r.value <= 7
    ensures r.Failure? ==> r.error == KeyError(name)
  {
    OrFail(ByName(ExponentColors, name), KeyError(name))
  }

  /** `ExponentColor(code).name`: defined for the codes -3..7, a ValueError otherwise. */
  function ExponentColorName(code: int): (r: Result<string>)
    ensures r.Success? <==> -3 <= code <= 7
    ensures r.Failure? ==> r.error == InvalidEnumValue(code as real)
  {
    IndexOfValueFromSpec(ExponentColors, code, 0);
    assert 0 <= code <= 7 ==> ExponentColors[code].value == code;
    assert -3 <= code < 0 ==> ExponentColors[7 - code].value == code;
    OrFail(ByValue(ExponentColors, code), InvalidEnumValue(code as real))
  }

  /** `TolerancePercentColor[name]`: the member's value; an unknown name is a KeyError. */
  function TolerancePercent(name: string): (r: Result<real>)
    ensures r.Failure? ==> r.error == KeyError(name)
  {
    OrFail(ByName(ToleranceColors, name), KeyError(name))
  }

  /** `TolerancePercentColor(percent).name`: defined for the nine listed percentages. */
  function ToleranceColorName(percent: real): (r: Result<string>)
    ensures r.Success? <==> percent in {1.0, 2.0, 0.5, 0.25, 0.1, 0.05, 5.0, 10.0, 20.0}
    ensures r.Failure? ==> r.error == InvalidEnumValue(percent)
  {
    IndexOfValueFromSpec(ToleranceColors, percent, 0);
    assert IndexOfValue(ToleranceColors, percent).None? ==>
      forall i :: 0 <= i < |ToleranceColors| ==> ToleranceColors[i].value != percent;
    OrFail(ByValue(ToleranceColors, percent), InvalidEnumValue(percent))
  }

  /**
   * The name every accepted name is displayed as: aliases map to their
   * canonical member, `grey` to `gray`, and every other name to itself.
   */
  function CanonicalName(name: string): (r: string)
    ensures r != "grey"
    ensures name == "grey" ==> r == "gray"
    ensures name != "grey" ==> r == name
  {
    if name == "grey" then "gray" else name
  }

  // Value colours

  lemma ValueColorsDistinct()
    ensures DistinctNames(ValueColors)
  {
  }

  /** `ValueColor[ValueColor(c).name] == c` for every code 0..9. */
  lemma ValueColorCodeRoundTrip(code: int)
    requires 0 <= code <= 9
    ensures ValueColorName(code).Success?
    ensures ValueColorCode(ValueColorName(code).value) == Success(code)
  {
    ValueColorsDistinct();
    ValueNameValue(ValueColors, code);
  }

  /** Each member's code leads back to the member's canonical name. */
  lemma ValueColorMember(i: nat)
    requires i < |ValueColors|
    ensures ValueColorName(ValueColors[i].value) == Success(CanonicalName(ValueColors[i].name))
  {
  }

  /** `ValueColor[name]` accepts exactly the eleven names. */
  lemma ValueColorNames(name: string)
    ensures ValueColorCode(name).Success? <==>
      name in {"black", "brown", "red", "orange", "yellow", "green", "blue", "violet", "gray", "grey", "white"}
  {
    IndexOfNameFromSpec(ValueColors, name, 0);
    if IndexOfName(ValueColors, name).None? {
      assert forall i :: 0 <= i < |ValueColors| ==> ValueColors[i].name != name;
    }
  }

  /**
   * `ValueColor[name]` gives a code 0..9, and `ValueColor(ValueColor[name]).name`
   * is the name itself, except `grey`, which comes back as `gray`.
   */
  lemma ValueColorNameRoundTrip(name: string)
    requires ValueColorCode(name).Success?
    ensures 0 <= ValueColorCode(name).value <= 9
    ensures ValueColorName(ValueColorCode(name).value) == Success(CanonicalName(name))
  {
    var i := IndexOfName(ValueColors, name).value;
    ValueColorMember(i);
  }

  // Exponent colours

  lemma ExponentColorsDistinct()
    ensures DistinctNames(ExponentColors)
  {
  }

  /** `ExponentColor[ExponentColor(c).name] == c` for every code -3..7. */
  lemma ExponentColorCodeRoundTrip(code: int)
    requires -3 <= code <= 7
    ensures ExponentColorName(code).Success?
    ensures ExponentColorCode(ExponentColorName(code).value) == Success(code)
  {
    ExponentColorsDistinct();
    ValueNameValue(ExponentColors, code);
  }

  /** The exponent table has no aliases: each member's code leads back to its own name. */
  lemma ExponentColorMember(i: nat)
    requires i < |ExponentColors|
    ensures ExponentColorName(ExponentColors[i].value) == Success(ExponentColors[i].name)
  {
  }

  /** `ExponentColor[name]` accepts exactly the eleven names. */
  lemma ExponentColorNames(name: string)
    ensures ExponentColorCode(name).Success? <==>
      name in {"black", "brown", "red", "orange", "yellow", "green", "blue", "violet", "gold", "silver", "pink"}
  {
    IndexOfNameFromSpec(ExponentColors, name, 0);
    if IndexOfName(ExponentColors, name).None? {
      assert forall i :: 0 <= i < |ExponentColors| ==> ExponentColors[i].name != name;
    }
  }

  /** `ExponentColor[name]` gives a code -3..7, and `ExponentColor(ExponentColor[name]).name == name`. */
  lemma ExponentColorNameRoundTrip(name: string)
    requires ExponentColorCode(name).Success?
    ensures -3 <= ExponentColorCode(name).value <= 7
    ensures ExponentColorName(ExponentColorCode(name).value) == Success(name)
  {
    var i := IndexOfName(ExponentColors, name).value;
    ExponentColorMember(i);
  }

  // Tolerance colours

  lemma ToleranceColorsDistinct()
    ensures DistinctNames(ToleranceColors)
  {
  }

  /** `TolerancePercentColor[TolerancePercentColor(p).name] == p` for every listed percentage. */
  lemma TolerancePercentRoundTrip(percent: real)
    requires ToleranceColorName(percent).Success?
    ensures TolerancePercent(ToleranceColorName(percent).value) == Success(percent)
  {
    ToleranceColorsDistinct();
    ValueNameValue(ToleranceColors, percent);
  }

  /** Each member's percentage leads back to the member's canonical name. */
  lemma ToleranceColorMember(i: nat)
    requires i < |ToleranceColors|
    ensures ToleranceColorName(ToleranceColors[i].value) == Success(CanonicalName(ToleranceColors[i].name))
  {
  }

  /** `TolerancePercentColor[name]` accepts exactly the ten names. */
  lemma ToleranceColorNames(name: string)
    ensures TolerancePercent(name).Success? <==>
      name in {"brown", "red", "green", "blue", "violet", "gray", "grey", "gold", "silver", "none"}
  {
    IndexOfNameFromSpec(ToleranceColors, name, 0);
    if IndexOfName(ToleranceColors, name).None? {
      assert forall i :: 0 <= i < |ToleranceColors| ==> ToleranceColors[i].name != name;
    }
  }

  /**
   * `TolerancePercentColor(TolerancePercentColor[name]).name` is the name
   * itself, except `grey`, which comes back as `gray`.
   */
  lemma ToleranceNameRoundTrip(name: string)
    requires TolerancePercent(name).Success?
    ensures ToleranceColorName(TolerancePercent(name).value) == Success(CanonicalName(name))
  {
    var i := IndexOfName(ToleranceColors, name).value;
    ToleranceColorMember(i);
  }
}
