/**
 * The closed set of weather conditions, the WMO present-weather code table
 * (the subset of WMO code table 4677 that Open-Meteo publishes) and the
 * Celsius to Fahrenheit conversion.
 */
module Conditions {

  datatype Condition =
    | Clear
    | PartlyCloudy
    | Overcast
    | Fog
    | Drizzle
    | Rain
    | Snow
    | Thunderstorm
    | Unknown

  /** The enum member's `.value`, the text the reports print. */
  function DisplayValue(c: Condition): (s: string)
    ensures |s| > 0
  {
    match c
    case Clear => "Clear"
    case PartlyCloudy => "Partly Cloudy"
    case Overcast => "Overcast"
    case Fog => "Fog"
    case Drizzle => "Drizzle"
    case Rain => "Rain"
    case Snow => "Snow"
    case Thunderstorm => "Thunderstorm"
    case Unknown => "Unknown"
  }

  /** No two conditions share a display value. */
  lemma DisplayValuesDistinct(c: Condition, d: Condition)
    ensures DisplayValue(c) == DisplayValue(d) ==> c == d
  {
  }

  /** The code table exactly as the service holds it: one entry per code. */
  const WmoCodeMap: map<int, Condition> := map[
    0 := Clear, 1 := Clear,
    2 := PartlyCloudy,
    3 := Overcast,
    45 := Fog, 48 := Fog,
    51 := Drizzle, 53 := Drizzle, 55 := Drizzle, 56 := Drizzle, 57 := Drizzle,
    61 := Rain, 63 := Rain, 65 := Rain, 66 := Rain, 67 := Rain,
    71 := Snow, 73 := Snow, 75 := Snow, 77 := Snow,
    80 := Rain, 81 := Rain, 82 := Rain,
    85 := Snow, 86 := Snow,
    95 := Thunderstorm, 96 := Thunderstorm, 99 := Thunderstorm
  ]

  /** The same table read by condition: the codes that mean each condition. */
  function CodesOf(c: Condition): set<int>
  {
    match c
    case Clear => {0, 1}
    case PartlyCloudy => {2}
    case Overcast => {3}
    case Fog => {45, 48}
    case Drizzle => {51, 53, 55, 56, 57}
    case Rain => {61, 63, 65, 66, 67, 80, 81, 82}
    case Snow => {71, 73, 75, 77, 85, 86}
    case Thunderstorm => {95, 96, 99}
    case Unknown => {}
  }

  /** Every code has a condition: a table lookup with `Unknown` as the default. */
  function InterpretWeatherCode(code: int): (c: Condition)
    ensures c == Unknown <==> code !in WmoCodeMap
    ensures c != Unknown ==> code in CodesOf(c)
  {
    if code in WmoCodeMap then WmoCodeMap[code] else Unknown
  }

  /** Reading the table by code and by condition agree, in both directions. */
  lemma {:induction false} InterpretMatchesCodesOf(code: int, c: Condition)
    ensures InterpretWeatherCode(code) == c && c != Unknown <==> code in CodesOf(c)
  {
    if code in CodesOf(c) {
      match c
      case Clear => ListedAs(code, CodesOf(Clear), Clear);
      case PartlyCloudy => ListedAs(code, CodesOf(PartlyCloudy), PartlyCloudy);
      case Overcast => ListedAs(code, CodesOf(Overcast), Overcast);
      case Fog => ListedAs(code, CodesOf(Fog), Fog);
      case Drizzle => ListedAs(code, CodesOf(Drizzle), Drizzle);
      case Rain => ListedAs(code, CodesOf(Rain), Rain);
      case Snow => ListedAs(code, CodesOf(Snow), Snow);
      case Thunderstorm => ListedAs(code, CodesOf(Thunderstorm), Thunderstorm);
    }
  }

  lemma ListedAs(code: int, codes: set<int>, c: Condition)
    requires code in codes && codes == CodesOf(c)
    ensures InterpretWeatherCode(code) == c
  {
  }

  /** A code outside the table, however large or negative, means `Unknown`. */
  lemma UnlistedCodesAreUnknown(code: int)
    requires code < 0 || 99 < code || (4 <= code < 45)
    ensures InterpretWeatherCode(code) == Unknown
  {
  }

  /** `celsius * 9 / 5 + 32`; the exact inverse relation holds over the reals. */
  function CelsiusToFahrenheit(celsius: real): (fahrenheit: real)
    ensures (fahrenheit - 32.0) * 5.0 == celsius * 9.0
  {
    (celsius * 9.0 / 5.0) + 32.0
  }

  /** The conversion is strictly increasing. */
  lemma CelsiusToFahrenheitMonotonic(a: real, b: real)
    requires a < b
    ensures CelsiusToFahrenheit(a) < CelsiusToFahrenheit(b)
  {
  }

  /** Freezing and boiling points, and the point where both scales agree. */
  lemma CelsiusToFahrenheitKnownPoints()
    ensures CelsiusToFahrenheit(0.0) == 32.0
    ensures CelsiusToFahrenheit(100.0) == 212.0
    ensures CelsiusToFahrenheit(-40.0) == -40.0
  {
  }
}
