# Resistor colour-band codec

A Dafny model of `resistor.py` from resistor-business-cards. That file is the codec that:

- turns a resistance into its four- or three-band resistor colour code;
- turns colour names back into a resistance;
- prints a resistance with an SI prefix.

The model keeps the source's structure:

- `Fixed` is a decimal as an integer mantissa and an integer exponent. Its `from_float` re-rounds a value to `places + 1` significant digits.
- The three colour enums are `ValueColor`, `ExponentColor` and `TolerancePercentColor`, with Python `Enum` semantics:
  - lookup by name accepts the alias `grey`;
  - lookup by value returns the first-declared member, so `grey` comes back as `gray`;
  - an unknown name is a `KeyError` and an unknown value a `ValueError`.
- `ResistorValue` has its constructors from a number and from band names, its two band decoders, `value` and `__str__`. The module-level `si_prefixer` sits beside it.

Every operation is a pure function. Every Python exception that an operation can raise is a `Failure` value:

- `MathDomainError` for `math.log10` of a non-positive value;
- `KeyError` for an unknown colour name;
- `InvalidEnumValue` for `ValueColor(10)`, `ExponentColor(-4)` and the like;
- `PrefixNotFound` for the `ValueError` of `si_prefixer`.

Modules, one per file:

- `Wrappers`: Option, Result, Error.
- `Decimal`: exact powers of ten, `floor(log10 v)`, round-half-to-even.
- `FixedPoint`: `Fixed`.
- `Enums`: a generic Python-enum member table.
- `Colors`: the three tables.
- `Resistor`: `ResistorValue`, `si_prefixer` and `__str__`.

Numbers are exact:

- a Python float is a Dafny `real`;
- `10**e` is `Scale`/`Pow10`, exact for every integer `e`;
- `math.floor(math.log10(v))` is the unique `k` with `10^k <= v < 10^(k+1)`;
- `round` is round-half-to-even, as Python 3 rounds.

Floor division and `%` by a positive constant behave the same in Python and in Dafny.

Behaviours of the code worth knowing:

- `places` is one less than the number of significant digits:
  - `as_three_bands` uses `places = 1`, a two-digit mantissa;
  - `as_four_bands` and `ResistorValue.from_float` use `places = 2`, a three-digit mantissa.
- 220 ohms prints as `fmt(220) + "Ω"`, with no space. A value from 0 up to (not including) 1000 has no prefix, so `__str__` takes its `except` branch, which writes no space.
- Rounding that carries, such as 996 ohms decoded to three bands, is neither carried into the exponent nor reported as a width error. The re-rounded mantissa 100 asks for `ValueColor(10)`, which fails. The model states this outright: `ThreeBandsCarry`, `FourBandsCarry`, and the out-of-range case in the contracts of `ThreeBandNames`/`FourBandNames`.
- A leading black band does not survive a round trip. "black, x, y" is the one-digit mantissa code(x):
  - when x is black, the value is 0 and `as_three_bands` fails with a math domain error;
  - when x is not black and y is pink, the re-rounding lands one exponent lower and asks for `ExponentColor(-4)`, which fails;
  - otherwise `as_three_bands` re-rounds it to "x', black" one exponent lower, where x' is the canonical name of x (`grey` comes back as `gray`).
- `si_prefixer` takes a negative value to the `M` prefix, since `floor(v / 10^6)` is negative, hence non-zero, there.

## Model

| member | source | states |
|---|---|---|
| Decimal.Pow10Nat | resistor.py:16 | the integer power 10^n is at least 1 and equals the exact real power `10**n` |
| Decimal.Scale | resistor.py:16-20 | `x * 10**e` (and `x / 10**-e`) has the sign of x: positive, zero or negative exactly as x is |
| Decimal.FloorLog10 | resistor.py:14 | the result k is an order of magnitude of v: 10^k <= v < 10^(k+1) |
| Decimal.FloorLog10Unique | resistor.py:14 | no other integer than `FloorLog10(v)` satisfies 10^k <= v < 10^(k+1) |
| Decimal.RoundHalfEven | resistor.py:16 | `round` lands within one half of x, and on a tie the result is even |
| Decimal.RoundHalfEvenNearest | resistor.py:16 | no integer is nearer to x than `round(x)`, and on a tie no other even integer is as near |
| Decimal.RoundHalfEvenOfInt | resistor.py:16 | rounding an integer gives the same integer |
| FixedPoint.AsFloat | resistor.py:19-20 | `as_float` is positive, zero or negative exactly as the mantissa is |
| FixedPoint.AsFloatExact | resistor.py:19-20 | `as_float(Fixed(m, e))` is m * 10^e: an integer product for e >= 0, m / 10^-e for e < 0 |
| FixedPoint.FromFloat | resistor.py:13-17 | `from_float` fails exactly for val <= 0, with a math domain error on val |
| FixedPoint.FromFloatScaled | resistor.py:14-16 | exponent + places is floor(log10 val), and val / 10^exponent lies in [10^places, 10^(places+1)) |
| FixedPoint.FromFloatBounds | resistor.py:13-17 | for val > 0 the mantissa lies in [10^places, 10^(places+1)]; the upper end happens only when the scaled value is within one half of it (a carry); the result is within half a unit in the last place of val |
| FixedPoint.FromFloatExact | resistor.py:13-17 | a value that is already m * 10^e with a (places+1)-digit m comes back as exactly `Fixed(m, e)` |
| FixedPoint.FromFloatRenormalise | resistor.py:13-20 | re-rounding the result of `from_float` with the same places changes nothing, except that a carried mantissa 10^(places+1) becomes 10^places one exponent higher |
| Enums.IndexOfNameFromSpec | resistor.py:23-34 | name lookup finds the first member with that name, and fails only when no member has it |
| Enums.IndexOfValueFromSpec | resistor.py:23-34 | value lookup finds the first-declared member with that value, and fails only when no member has it |
| Enums.ByNameSpec | resistor.py:23-34 | `T[name]` gives the value of the first member with that name, and fails exactly when no member has it |
| Enums.ByValueSpec | resistor.py:23-34 | `T(value)` gives the name of the first-declared member with that value, never a later alias, and fails exactly when no member has it |
| Enums.ValueNameValue | resistor.py:23-34 | with distinct names, `T(v)` exists exactly when some member has value v, and `T[T(v).name] == v` |
| Enums.NameValueName | resistor.py:23-34 | `T[name]` of a declared member gives its value, and `T(value).name` gives the name back exactly when no earlier member has that value, i.e. it is not an alias |
| Colors.ValueColorCode | resistor.py:23-34 | `ValueColor[name]` is a code 0..9, or a KeyError on that name |
| Colors.ValueColorName | resistor.py:23-34 | `ValueColor(code)` succeeds exactly for codes 0..9, and otherwise fails with a ValueError on the code |
| Colors.ValueColorsDistinct | resistor.py:23-34 | the value colour names are distinct |
| Colors.ValueColorCodeRoundTrip | resistor.py:23-34 | `ValueColor[ValueColor(c).name] == c` for every c in 0..9 |
| Colors.ValueColorMember | resistor.py:23-34 | every declared value colour's code names its canonical member |
| Colors.ValueColorNames | resistor.py:23-34 | `ValueColor[name]` succeeds exactly for the eleven declared names, `grey` included |
| Colors.ValueColorNameRoundTrip | resistor.py:23-34 | `ValueColor(ValueColor[n]).name` is n, except that `grey` becomes `gray` |
| Colors.ExponentColorCode | resistor.py:37-48 | `ExponentColor[name]` is a code -3..7, or a KeyError on that name |
| Colors.ExponentColorName | resistor.py:37-48 | `ExponentColor(code)` succeeds exactly for codes -3..7, and otherwise fails with a ValueError on the code |
| Colors.ExponentColorsDistinct | resistor.py:37-48 | the exponent colour names are distinct |
| Colors.ExponentColorCodeRoundTrip | resistor.py:37-48 | `ExponentColor[ExponentColor(c).name] == c` for every c in -3..7 |
| Colors.ExponentColorMember | resistor.py:37-48 | the exponent table has no aliases: each member's code names that member |
| Colors.ExponentColorNames | resistor.py:37-48 | `ExponentColor[name]` succeeds exactly for the eleven declared names |
| Colors.ExponentColorNameRoundTrip | resistor.py:37-48 | `ExponentColor(ExponentColor[n]).name == n` for every accepted n |
| Colors.TolerancePercent | resistor.py:55-65 | an unknown tolerance colour name is a KeyError on that name |
| Colors.ToleranceColorName | resistor.py:55-65 | `TolerancePercentColor(p)` succeeds exactly for the nine declared percentages |
| Colors.ToleranceColorsDistinct | resistor.py:55-65 | the tolerance colour names are distinct |
| Colors.TolerancePercentRoundTrip | resistor.py:55-65 | `TolerancePercentColor[TolerancePercentColor(p).name] == p` for every declared p |
| Colors.ToleranceColorMember | resistor.py:55-65 | every declared tolerance colour's percentage names its canonical member |
| Colors.ToleranceColorNames | resistor.py:55-65 | `TolerancePercentColor[name]` succeeds exactly for the ten declared names, `grey` included |
| Colors.ToleranceNameRoundTrip | resistor.py:55-65 | `TolerancePercentColor(TolerancePercentColor[n]).name` is n, except that `grey` becomes `gray` |
| Resistor.Value | resistor.py:116-118 | `value` is mantissa * 10^exponent: an integer product for exponent >= 0, mantissa / 10^-exponent otherwise; it is positive or zero exactly as the mantissa is |
| Resistor.FindPrefixFrom | resistor.py:73-77 | the search finds nothing exactly when floor(value / 10^exp) is 0 for every prefix still to visit; otherwise it finds the first one, in visiting order, for which it is not 0 |
| Resistor.SiPrefixFloors | resistor.py:74 | floor(value / 10^6) is non-zero exactly for value >= 10^6 or value < 0, floor(value / 10^3) exactly for value >= 1000 or value < 0 |
| Resistor.SiPrefixer | resistor.py:68-78 | `si_prefixer` fails, with the value, exactly for 0 <= value < 1000; it gives (value / 10^6, "M") for value >= 10^6 or value < 0, and (value / 1000, "k") for 1000 <= value < 10^6 |
| Resistor.SiPrefixerScaled | resistor.py:78 | on success, scaled * 10^exp == value; the scaled value is at least 1 for a positive value, and below 1000 with the k prefix |
| Resistor.Str | resistor.py:120-124 | `__str__` is `fmt(v / 10^6) + " MΩ"`, `fmt(v / 1000) + " kΩ"` or, for 0 <= v < 1000, `fmt(v) + "Ω"` with no space |
| Resistor.StrExamples | resistor.py:120-124 | 4.7 * 10^3 prints with "4.7" and " kΩ", 220 with "220" directly followed by "Ω", 2.2 * 10^6 with "2.2" and " MΩ", 100 * 10^1 with "1" and " kΩ" |
| Resistor.FromFloat | resistor.py:85-87 | `ResistorValue.from_float` fails exactly for val <= 0, with a domain error on val; otherwise the exponent is floor(log10 val) - 2, the mantissa is 100..1000, with 1000 only on a carry (val / 10^exponent >= 999.5), and the value is within half a unit of the third digit |
| Resistor.FromFloatThousand | resistor.py:85-87 | `from_float(1000.0)` is `Fixed(100, 1)`: a value that is already three digits does not carry |
| Resistor.FromFloatCarry | resistor.py:85-87 | `from_float(999.6)` carries to the mantissa 1000 at exponent 0 |
| Resistor.FromThreeBands | resistor.py:89-93 | `from_three_bands` succeeds exactly when all three names are known; otherwise it fails with a KeyError on the first unknown name in argument order; the result is `Fixed(10 * code(first) + code(second), expcode(exponent))`, with a mantissa of 0..99 and an exponent of -3..7 |
| Resistor.FromThreeBandsOfNames | resistor.py:89-93 | the colours of digits a, b and exponent e decode to `Fixed(10a + b, e)` |
| Resistor.LeadingBlackDecode | resistor.py:89-93 | "black, x, y" decodes to the one-digit mantissa code(x) at expcode(y) |
| Resistor.FromFourBands | resistor.py:95-99 | `from_four_bands` succeeds exactly when all four names are known; otherwise it fails with a KeyError on the first unknown name in argument order; the result is `Fixed(100 * code(first) + 10 * code(second) + code(third), expcode(exponent))`, with a mantissa of 0..999 and an exponent of -3..7 |
| Resistor.FromFourBandsOfNames | resistor.py:95-99 | the colours of digits a, b, c and exponent e decode to `Fixed(100a + 10b + c, e)` |
| Resistor.MantissaDigits | resistor.py:103-112 | the `// 100`, `(m - first*100) // 10`, `% 10` split of a mantissa below 1000 gives three digits 0..9 that recombine to it, and the `// 10`, `% 10` split of one below 100 gives two |
| Resistor.SplitDigits | resistor.py:110-112 | the split of the mantissa 100a + 10b + c gives back exactly a, b and c |
| Resistor.ThreeBandNames | resistor.py:103-106 | naming succeeds exactly for a mantissa of 0..99 and an exponent of -3..7; a mantissa outside 0..99 (a carried 100 included) fails on `ValueColor(m // 10)`, and an exponent outside -3..7 on `ExponentColor(e)` |
| Resistor.ThreeBandNamesDecode | resistor.py:89-106 | every triple of names that naming produces decodes back through `from_three_bands` to exactly the value named |
| Resistor.ThreeBandNamesDigits | resistor.py:103-106 | `Fixed(10a + b, e)` is named as the colours of a, b and e |
| Resistor.FourBandNames | resistor.py:110-114 | naming succeeds exactly for a mantissa of 0..999 and an exponent of -3..7; a mantissa outside 0..999 (a carried 1000 included) fails on `ValueColor(m // 100)`, and an exponent outside -3..7 on `ExponentColor(e)` |
| Resistor.FourBandNamesDecode | resistor.py:95-114 | every quadruple of names that naming produces decodes back through `from_four_bands` to exactly the value named |
| Resistor.FourBandDigitsDecode | resistor.py:95-114 | the names of the digits a, b, c and exponent e are produced by naming and decode back to abc * 10^e |
| Resistor.FourBandNamesDigits | resistor.py:110-114 | `Fixed(100a + 10b + c, e)` is named as the colours of a, b, c and e |
| Resistor.AsThreeBands | resistor.py:101-106 | `as_three_bands` fails with a domain error for a value <= 0; otherwise it names the two-digit re-rounding d, whose mantissa is 10..100 and which is within half a unit of the value |
| Resistor.AsFourBands | resistor.py:108-114 | `as_four_bands` fails with a domain error for a value <= 0; otherwise it names the three-digit re-rounding d, whose mantissa is 100..1000 and which is within half a unit of the value |
| Resistor.AsThreeBandsExact | resistor.py:101-102 | a value whose mantissa already has two digits is not changed by the re-rounding in `as_three_bands` |
| Resistor.AsFourBandsExact | resistor.py:108-109 | a value whose mantissa already has three digits is not changed by the re-rounding in `as_four_bands` |
| Resistor.SameValueSameBands | resistor.py:101-109 | both band decoders depend only on the value, not on how mantissa and exponent store it |
| Resistor.AsThreeBandsDigits | resistor.py:101-106 | `as_three_bands` of `Fixed(10a + b, e)` with a ≠ 0 is the colours of a, b and e |
| Resistor.AsFourBandsDigits | resistor.py:108-114 | `as_four_bands` of `Fixed(100a + 10b + c, e)` with a ≠ 0 is the colours of a, b, c and e |
| Resistor.ThreeBandsRoundTripCodes | resistor.py:89-106 | a value decoded from names with codes a (not 0), b and e is encoded back as the colours of a, b and e |
| Resistor.FourBandsRoundTripCodes | resistor.py:95-114 | a value decoded from names with codes a (not 0), b, c and e is encoded back as the colours of a, b, c and e |
| Resistor.ThreeBandsRoundTrip | resistor.py:89-106 | `as_three_bands(from_three_bands(x, y, z))` is the canonical names of x, y, z whenever x is not black |
| Resistor.FourBandsRoundTrip | resistor.py:95-114 | `as_four_bands(from_four_bands(w, x, y, z))` is the canonical names of w, x, y, z whenever w is not black |
| Resistor.ThreeBandsValueRoundTrip | resistor.py:89-106 | a two-digit mantissa at an exponent in -3..7 is encoded to three names that decode back to the same value |
| Resistor.FourBandsValueRoundTrip | resistor.py:95-114 | a three-digit mantissa at an exponent in -3..7 is encoded to four names that decode back to the same value |
| Resistor.LeadingBlackReencode | resistor.py:101-106 | the one-digit mantissa b at 10^e: b = 0 is a domain error; b > 0 with e = -3 fails on `ExponentColor(-4)`; otherwise it comes back as (colour of b, "black", colour of e - 1) |
| Resistor.FourBandsAllBlack | resistor.py:95-114 | four black digit bands give the value 0, which both decoders reject with a domain error |
| Resistor.ThreeBandsCarry | resistor.py:101-104 | 996 ohms re-rounds to mantissa 100 in `as_three_bands`, which fails on `ValueColor(10)` |
| Resistor.FourBandsOf996 | resistor.py:95-114 | "white, white, blue, black" is 996 ohms, and `as_four_bands` gives those names back |
| Resistor.CarriedBands | resistor.py:108-109 | a carried mantissa 1000 at 10^e is decoded as the value 100 at 10^(e+1) |
| Resistor.HundredBands | resistor.py:108-114 | the value 100 at 10^(e+1) is named as the colours of 1, 0, 0 and e + 1 |
| Resistor.FourBandsAfterCarry | resistor.py:108-114 | a stored mantissa 1000 (the carried result of `from_float`) is decoded as "brown, black, black" and the colour of e + 1 |
| Resistor.FourBandsCarry | resistor.py:108-112 | a stored 9996 * 10^-1 (999.6 ohms) re-rounds to mantissa 1000 in `as_four_bands`, which fails on `ValueColor(10)` |

## Left out

- `resistor_cards.py`, the card renderer, is not part of this model: plotting, image compositing, file-system access and card geometry.
- `ExponentColor.multiplier` (resistor.py:50-52) is left out: a cached float power of ten that no modelled operation uses.
- IEEE floating-point behaviour is left out. `math.log10`, `10**exponent`, `/` and `float(...)` are exact real arithmetic. Rounding error in `log10` near a power of ten, and in the division by `10**exponent`, is not modelled.
- `{:g}` number formatting is not modelled. `Str` takes the formatter as a function parameter `fmt`, and the model fixes only the prefix choice and the shape of the string.
- `.strip()` in `__str__` is not modelled. It never removes anything: the string always ends in "Ω", and `{:g}` output never starts with whitespace. `Str` thus assumes that `fmt`, like `{:g}`, writes no leading whitespace.
- Exception messages are not modelled. Each `Error` constructor records only the offending name or value.
- Python `Enum` lookups by a value of another type are not modelled, for example `ValueColor(8.0)`. The decoders call them only with integers.
- Colors.TolerancePercent: its contract states only the error case. ToleranceColorNames states which names succeed, and ToleranceNameRoundTrip ties each name's percentage back to its member.
