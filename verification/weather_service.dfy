/**
 * One weather fetch for one location: the provider's answer is abstracted into
 * a `Response` value, and `FetchWeather` classifies it exactly as the service
 * does, into a reading, a wrapped service error, or an error the service lets
 * escape unwrapped.
 */
module WeatherService {
  import opened Optional
  import opened Text
  import opened Conditions

  /** A country as the service sees it: its name, capital, coordinates and continent. */
  datatype Location = Location(
    name: string,
    capital: string,
    latitude: real,
    longitude: real,
    continent: string)

  /** One weather observation (the service's `WeatherData` record). */
  datatype Reading = Reading(
    country: string,
    capital: string,
    continent: string,
    temperatureCelsius: real,
    temperatureFahrenheit: real,
    humidity: int,
    windSpeedKmh: real,
    condition: Condition,
    weatherCode: int)

  /** A reading whose derived fields agree with its raw ones. */
  predicate Derived(r: Reading)
  {
    && r.temperatureFahrenheit == CelsiusToFahrenheit(r.temperatureCelsius)
    && r.condition == InterpretWeatherCode(r.weatherCode)
  }

  /** A JSON scalar as Python's `float()` and `int()` see it. */
  datatype Scalar =
    | Number(x: real)
    | Boolean(b: bool)
    | NonNumeric  // a string, null, array or object

  /** The value under the `"current"` key. */
  datatype CurrentBlock =
    | NotAMapping
    | Fields(
        temperature2m: Option<Scalar>,
        relativeHumidity2m: Option<Scalar>,
        weatherCode: Option<Scalar>,
        windSpeed10m: Option<Scalar>)

  /** A decoded JSON body. */
  datatype Document =
    | NotAnObject
    | Object(current: Option<CurrentBlock>)

  /** What one HTTP exchange with the forecast provider produced. */
  datatype Response =
    | TransportFailure(cause: string)  // connection error, timeout or non-2xx status
    | InvalidJson(cause: string)       // the body does not decode as JSON
    | Received(body: Document)

  /** Errors the service does not wrap (Python `KeyError`, `ValueError`, `TypeError`). */
  datatype Fault =
    | MissingKey(key: string)
    | Unconvertible(key: string)
    | NotSubscriptable(what: string)

  /**
   * How a call ends: a value, a `WeatherServiceError` with its message, or any
   * other exception.
   */
  datatype Outcome<+T> =
    | Ok(value: T)
    | ServiceError(message: string)
    | OtherError(fault: Fault)
  {
    predicate IsFailure()
    {
      !Ok?
    }

    function PropagateFailure<U>(): Outcome<U>
      requires !Ok?
    {
      match this
      case ServiceError(m) => ServiceError(m)
      case OtherError(f) => OtherError(f)
    }

    function Extract(): T
      requires Ok?
    {
      value
    }
  }

  const TemperatureKey: string := "temperature_2m"
  const HumidityKey: string := "relative_humidity_2m"
  const WeatherCodeKey: string := "weather_code"
  const WindSpeedKey: string := "wind_speed_10m"

  /** Python's `int(x)` on a float: truncation toward zero. */
  function Truncate(x: real): (n: int)
    ensures 0.0 <= x ==> n as real <= x < n as real + 1.0
    ensures x < 0.0 ==> n as real - 1.0 < x <= n as real
  {
    if 0.0 <= x then x.Floor else -((-x).Floor)
  }

  /** Python's `float(v)`; `None` where it raises. */
  function AsFloat(v: Scalar): Option<real>
  {
    match v
    case Number(x) => Some(x)
    case Boolean(b) => Some(if b then 1.0 else 0.0)
    case NonNumeric => None
  }

  /** Python's `int(v)`; `None` where it raises. */
  function AsInt(v: Scalar): Option<int>
  {
    match v
    case Number(x) => Some(Truncate(x))
    case Boolean(b) => Some(if b then 1 else 0)
    case NonNumeric => None
  }

  /** `float(current[key])`. */
  function FloatField(key: string, field: Option<Scalar>): (r: Outcome<real>)
    ensures r.Ok? <==> field.Some? && AsFloat(field.value).Some?
    ensures r.Ok? ==> AsFloat(field.value) == Some(r.value)
    ensures !r.ServiceError?
    ensures field.None? ==> r == OtherError(MissingKey(key))
    ensures field.Some? && !r.Ok? ==> r == OtherError(Unconvertible(key))
  {
    match field
    case None => OtherError(MissingKey(key))
    case Some(v) =>
      match AsFloat(v)
      case Some(x) => Ok(x)
      case None => OtherError(Unconvertible(key))
  }

  /** `int(current[key])`. */
  function IntField(key: string, field: Option<Scalar>): (r: Outcome<int>)
    ensures r.Ok? <==> field.Some? && AsInt(field.value).Some?
    ensures r.Ok? ==> AsInt(field.value) == Some(r.value)
    ensures !r.ServiceError?
    ensures field.None? ==> r == OtherError(MissingKey(key))
    ensures field.Some? && !r.Ok? ==> r == OtherError(Unconvertible(key))
  {
    match field
    case None => OtherError(MissingKey(key))
    case Some(v) =>
      match AsInt(v)
      case Some(n) => Ok(n)
      case None => OtherError(Unconvertible(key))
  }

  /** The message of a wrapped transport failure. */
  function FetchFailedMessage(loc: Location, cause: string): string
  {
    "Failed to fetch weather for " + loc.name + " (" + loc.capital + "): " + cause
  }

  /** The message of a wrapped unreadable response. */
  function InvalidResponseMessage(loc: Location, cause: string): string
  {
    "Invalid response for " + loc.name + " (" + loc.capital + "): " + cause
  }

  /** Python's `str(KeyError("current"))`. */
  const MissingCurrentCause: string := "'current'"

  /** Both messages name the location's country and capital. */
  lemma MessageNamesLocation(prefix: string, loc: Location, cause: string)
    ensures Contains(prefix + loc.name + " (" + loc.capital + "): " + cause, loc.name)
    ensures Contains(prefix + loc.name + " (" + loc.capital + "): " + cause, loc.capital)
  {
    var m := prefix + loc.name + " (" + loc.capital + "): " + cause;
    assert m == prefix + loc.name + (" (" + loc.capital + "): " + cause);
    ContainsInfix(prefix, loc.name, " (" + loc.capital + "): " + cause);
    assert m == (prefix + loc.name + " (") + loc.capital + ("): " + cause);
    ContainsInfix(prefix + loc.name + " (", loc.capital, "): " + cause);
  }

  /** All four fields are present and convertible. */
  predicate Complete(block: CurrentBlock)
  {
    && block.Fields?
    && block.temperature2m.Some? && AsFloat(block.temperature2m.value).Some?
    && block.weatherCode.Some? && AsInt(block.weatherCode.value).Some?
    && block.relativeHumidity2m.Some? && AsInt(block.relativeHumidity2m.value).Some?
    && block.windSpeed10m.Some? && AsFloat(block.windSpeed10m.value).Some?
  }

  /** Builds the reading from the `"current"` block, reading the fields in the order `fetch_weather` reads them. */
  function ReadingFrom(loc: Location, block: CurrentBlock): Outcome<Reading>
  {
    match block
    case NotAMapping => OtherError(NotSubscriptable("current"))
    case Fields(temperature, humidity, code, wind) =>
      var celsius :- FloatField(TemperatureKey, temperature);
      var weatherCode :- IntField(WeatherCodeKey, code);
      var relativeHumidity :- IntField(HumidityKey, humidity);
      var windSpeed :- FloatField(WindSpeedKey, wind);
      Ok(Reading(
        loc.name, loc.capital, loc.continent,
        celsius, CelsiusToFahrenheit(celsius),
        relativeHumidity, windSpeed,
        InterpretWeatherCode(weatherCode), weatherCode))
  }

  /**
   * `fetch_weather`: only transport failures, undecodable JSON and a missing
   * `"current"` key become a `WeatherServiceError`; every other defect of the
   * body escapes as some other error.
   */
  function FetchWeather(loc: Location, response: Response): (r: Outcome<Reading>)
    ensures r.ServiceError? <==>
      || response.TransportFailure?
      || response.InvalidJson?
      || response == Received(Object(None))
    ensures r.ServiceError? ==> Contains(r.message, loc.name) && Contains(r.message, loc.capital)
    ensures r.Ok? <==>
      response.Received? && response.body.Object? && response.body.current.Some?
      && Complete(response.body.current.value)
    ensures r.Ok? ==>
      var block := response.body.current.value;
      && r.value.country == loc.name
      && r.value.capital == loc.capital
      && r.value.continent == loc.continent
      && Some(r.value.temperatureCelsius) == AsFloat(block.temperature2m.value)
      && Some(r.value.weatherCode) == AsInt(block.weatherCode.value)
      && Some(r.value.humidity) == AsInt(block.relativeHumidity2m.value)
      && Some(r.value.windSpeedKmh) == AsFloat(block.windSpeed10m.value)
      && Derived(r.value)
  {
    match response
    case TransportFailure(cause) =>
      MessageNamesLocation("Failed to fetch weather for ", loc, cause);
      ServiceError(FetchFailedMessage(loc, cause))
    case InvalidJson(cause) =>
      MessageNamesLocation("Invalid response for ", loc, cause);
      ServiceError(InvalidResponseMessage(loc, cause))
    case Received(NotAnObject) =>
      OtherError(NotSubscriptable("response body"))
    case Received(Object(None)) =>
      MessageNamesLocation("Invalid response for ", loc, MissingCurrentCause);
      ServiceError(InvalidResponseMessage(loc, MissingCurrentCause))
    case Received(Object(Some(block))) =>
      ReadingFrom(loc, block)
  }

  /** A field missing from `"current"` is never wrapped: it reports the first missing or bad key. */
  lemma {:induction false} MissingFieldIsNotServiceError(loc: Location, block: CurrentBlock)
    requires block.Fields?
    requires block.temperature2m.None? || block.weatherCode.None?
      || block.relativeHumidity2m.None? || block.windSpeed10m.None?
    ensures FetchWeather(loc, Received(Object(Some(block)))).OtherError?
    ensures block.temperature2m.None? ==>
      FetchWeather(loc, Received(Object(Some(block)))) == OtherError(MissingKey(TemperatureKey))
  {
    var r := FetchWeather(loc, Received(Object(Some(block))));
    assert !Complete(block);
  }

  /** The fault reported is the one at the first key, in the order `fetch_weather` reads them, that fails. */
  lemma {:induction false} FirstBadFieldIsReported(loc: Location, block: CurrentBlock, k: nat)
    requires block.Fields?
    requires k < 4
    requires forall i :: 0 <= i < k ==> FieldConverts(block, i)
    requires !FieldConverts(block, k)
    ensures FetchWeather(loc, Received(Object(Some(block)))) ==
      OtherError(if FieldOf(block, k).None? then MissingKey(FieldKey(k)) else Unconvertible(FieldKey(k)))
  {
    if k > 0 { assert FieldConverts(block, 0); }
    if k > 1 { assert FieldConverts(block, 1); }
    if k > 2 { assert FieldConverts(block, 2); }
  }

  /** The fields in the order `fetch_weather` reads them. */
  function FieldKey(i: nat): string
    requires i < 4
  {
    [TemperatureKey, WeatherCodeKey, HumidityKey, WindSpeedKey][i]
  }

  function FieldOf(block: CurrentBlock, i: nat): Option<Scalar>
    requires block.Fields? && i < 4
  {
    [block.temperature2m, block.weatherCode, block.relativeHumidity2m, block.windSpeed10m][i]
  }

  /** Field `i` is present and its conversion (`float` for 0 and 3, `int` for 1 and 2) succeeds. */
  predicate FieldConverts(block: CurrentBlock, i: nat)
    requires block.Fields? && i < 4
  {
    FieldOf(block, i).Some? &&
    (if i == 0 || i == 3 then AsFloat(FieldOf(block, i).value).Some?
     else AsInt(FieldOf(block, i).value).Some?)
  }
}
