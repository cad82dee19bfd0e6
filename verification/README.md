# Weather report: a verified model of the fetch and report core

This project models the core of a small world-weather reporter. The core
does the following:

- It asks a forecast service for the current weather at a location.
- It turns the service's `current` block into a weather reading. The
  reading has the temperature in Celsius and Fahrenheit, the humidity and
  the wind speed. It also has a condition decoded from the WMO weather code.
- It fetches many locations in a batch under a "skip" or "raise" error
  policy.
- It builds three reports from the readings:
  - a summary table;
  - a per-continent summary with counts and temperature statistics;
  - the weather extremes: hottest, coldest, most humid and windiest.

Everything is modelled as immutable datatypes and pure functions. The one
exception is the batch, which is a method with a loop. The modules are:

| module | file | models |
|---|---|---|
| `Optional` | optional.dfy | `None` / a value |
| `Text` | text.dfy | substring containment, repetition, left-aligned padding |
| `StrOrder` | ordering.dfy | Python's string `<` and `sorted` on strings |
| `Conditions` | conditions.dfy | the condition enumeration, the WMO code table, Celsius to Fahrenheit |
| `WeatherService` | weather_service.dfy | locations, readings, the service response, `fetch_weather` |
| `Batch` | batch.dfy | `fetch_weather_batch` |
| `Extremes` | extremes.dfy | `find_extremes`, `format_extremes` |
| `SummaryTable` | summary_table.dfy | `format_summary_table` |
| `ContinentSummary` | continent_summary.dfy | `format_continent_summary` |

The HTTP call is not modelled as a call. `FetchWeather` receives what the
call produced as a `Response`, which is one of three things:

- a transport failure;
- a body that is not JSON;
- a decoded JSON document, described only as far as the code inspects it.

The batch receives the per-location fetch as a function parameter. That
function is indexed by call number, so the same location can succeed on
one call and fail on another.

Temperatures and speeds are `real`, so the model has no rounding.
Python's `int()` on a float truncates toward zero, and the model writes
that out in `WeatherService.Truncate`.

### Which failures become a service error

Only three failures are wrapped in `WeatherServiceError`
(weather_report/weather_service.py:94-108):

- a transport failure;
- undecodable JSON;
- a missing `"current"` key.

A field missing inside `"current"`, or a value that `float()`/`int()`
rejects, raises a plain `KeyError`/`ValueError`/`TypeError` at lines
110-120. A decoded body that is not a JSON object raises `TypeError` at
line 104, which the `except (ValueError, KeyError)` there does not catch.
The batch never catches any of these, whatever the policy. In the model
such failures are `OtherError`, never `ServiceError`.
`WeatherService.MissingFieldIsNotServiceError` and
`WeatherService.FirstBadFieldIsReported` state this.

## Model

| member | source | states |
|---|---|---|
| Conditions.DisplayValue | weather_report/weather_service.py:14-23 | every condition's display value is non-empty |
| Conditions.DisplayValuesDistinct | weather_report/weather_service.py:14-23 | two conditions with the same display value are the same condition, so the nine values are pairwise distinct |
| Conditions.InterpretWeatherCode | weather_report/weather_service.py:83-84 | the lookup is total; it gives Unknown exactly for the integers that are not keys of the WMO table, and otherwise a condition whose code set contains the code |
| Conditions.InterpretMatchesCodesOf | weather_report/weather_service.py:26-55 | for every code and every condition other than Unknown, the code decodes to that condition iff it is one of the codes listed for it (0, 1 Clear; 2 Partly Cloudy; 3 Overcast; 45, 48 Fog; 51, 53, 55, 56, 57 Drizzle; 61, 63, 65, 66, 67, 80, 81, 82 Rain; 71, 73, 75, 77, 85, 86 Snow; 95, 96, 99 Thunderstorm) |
| Conditions.UnlistedCodesAreUnknown | weather_report/weather_service.py:83-84 | negative codes, codes above 99 and codes 4 to 44 decode to Unknown (this covers -1 and 999) |
| Conditions.CelsiusToFahrenheit | weather_report/weather_service.py:79-80 | the result f satisfies (f - 32) * 5 = c * 9, which is the inverse conversion |
| Conditions.CelsiusToFahrenheitMonotonic | weather_report/weather_service.py:79-80 | a warmer Celsius temperature is a strictly warmer Fahrenheit temperature |
| Conditions.CelsiusToFahrenheitKnownPoints | weather_report/weather_service.py:79-80 | 0 °C is 32 °F, 100 °C is 212 °F, and -40 °C is -40 °F |
| WeatherService.Truncate | weather_report/weather_service.py:111 | `int()` of a float truncates toward zero: it is the integer within one of x, on x's side of zero |
| WeatherService.FloatField | weather_report/weather_service.py:110 | `float(current[key])` succeeds iff the key is present and convertible; otherwise it raises a KeyError or conversion fault naming the key, never a service error |
| WeatherService.IntField | weather_report/weather_service.py:111 | `int(current[key])` succeeds iff the key is present and convertible; otherwise it raises a fault naming the key, never a service error |
| WeatherService.MessageNamesLocation | weather_report/weather_service.py:98-100 | a message built as `prefix name (capital): cause` contains both the country name and the capital |
| WeatherService.FetchWeather | weather_report/weather_service.py:87-123 | there is a service error iff the transport failed, the JSON was invalid, or `current` is missing, and its message names the country and the capital; there is a reading iff `current` holds all four fields convertible; the reading copies name, capital and continent, holds the converted fields, sets Fahrenheit from Celsius and the condition from the code, and keeps the raw code |
| WeatherService.MissingFieldIsNotServiceError | weather_report/weather_service.py:110-120 | a `current` block missing any of the four fields gives a non-service error; a missing temperature is reported as the temperature key |
| WeatherService.FirstBadFieldIsReported | weather_report/weather_service.py:110-120 | the fault reported is for the first field, in the order temperature, weather code, humidity, wind speed, that is missing or unconvertible |
| Batch.SuccessesFromOutcomes | weather_report/weather_service.py:130-134 | the kept readings number at most the outcomes, and each comes from a successful outcome |
| Batch.AllSucceed | weather_report/weather_service.py:130-134 | when every outcome succeeds, the readings are exactly the outcomes' readings, in order |
| Batch.FetchWeatherBatch | weather_report/weather_service.py:126-138 | the result is returned iff every fetch succeeded or was a service error under a policy other than "raise"; it then holds exactly the successful readings in input order, after one call per location; otherwise the error is that of the last call, the first one not tolerated, and no partial list is returned; a service error escapes only under "raise", and any other error always aborts; empty input gives an empty list with no calls; the policy defaults to "skip" |
| Batch.AllOkKeepsEveryReading | weather_report/weather_service.py:130-134 | if every fetch succeeds, the readings are one per location, in input order, whatever the policy |
| Extremes.ArgMax | weather_report/report.py:93 | `max` with a key picks the first position whose key is largest |
| Extremes.ArgMin | weather_report/report.py:94 | `min` with a key picks the first position whose key is smallest |
| Extremes.FirstMaxUnique | weather_report/report.py:93 | only one position is the first maximum, so ties resolve to the earliest element |
| Extremes.FirstMinUnique | weather_report/report.py:94 | only one position is the first minimum |
| Extremes.FindExtremes | weather_report/report.py:84-97 | all four extremes are absent iff the list is empty; otherwise each is the element at the first position of the largest (smallest for coldest) temperature, humidity or wind speed |
| Extremes.ExtremesAreBounds | weather_report/report.py:92-97 | for any member of the list, the hottest, coldest, most humid and windiest are members and bound it |
| Extremes.SingletonIsEveryExtreme | weather_report/report.py:92-97 | for a one-element list, all four extremes are that element |
| Extremes.FormatExtremes | weather_report/report.py:100-135 | the "no data" answer comes iff the list is empty; otherwise there are banner, rule, hottest, coldest, most humid and windiest lines; each line carries the country, capital and figure of the reading that `FindExtremes` chose, and those figures bound every reading |
| SummaryTable.TableHeaderShape | weather_report/report.py:22-25 | the padded header is 128 characters wide and begins with "Country" |
| SummaryTable.FormatSummaryTable | weather_report/report.py:21-35 | there are n+2 lines: the header, then a rule of dashes as long as the header, then one row per reading in input order, carrying that reading's fields and condition text |
| SummaryTable.RowsAreTheReadings | weather_report/report.py:26-35 | exactly the lines after the first two are rows, so empty input gives exactly two lines |
| StrOrder.BelowTransitive | weather_report/report.py:44 | Python's string order is transitive |
| StrOrder.BelowTotal | weather_report/report.py:44 | of two different strings, one is below the other |
| StrOrder.Sort | weather_report/report.py:44 | `sorted` of distinct keys is strictly ascending and has the same elements |
| StrOrder.SortedUnique | weather_report/report.py:44 | two strictly ascending sequences with the same elements are equal, so the sorted order is determined by the keys |
| ContinentSummary.OfContinent | weather_report/report.py:39-41 | a continent's group holds only readings of the list on that continent |
| ContinentSummary.OfContinentNonEmpty | weather_report/report.py:39-41 | a continent's group is non-empty iff some reading is on that continent |
| ContinentSummary.OfContinentComplete | weather_report/report.py:39-41 | every reading is in its own continent's group |
| ContinentSummary.GroupByContinent | weather_report/report.py:39-41 | the dictionary's keys are distinct and are exactly the continents of the readings; each key maps to its continent's readings in input order |
| ContinentSummary.MeanBetween | weather_report/report.py:47-49 | the mean of a non-empty list lies between its minimum and maximum |
| ContinentSummary.Summarize | weather_report/report.py:45-50 | one group's block has its continent and size, the mean temperature (sum over size), the lowest and highest temperature, and the mean humidity (sum over size); the mean temperature lies between the lowest and the highest |
| ContinentSummary.HumidityBetween | weather_report/report.py:50 | the mean humidity lies between the group's lowest and highest humidity |
| ContinentSummary.TemperaturesBound | weather_report/report.py:46-49 | every temperature in a group lies between the group's minimum and maximum, and both are attained |
| ContinentSummary.AverageExample | weather_report/report.py:47-49 | readings at 20 and 30 degrees average 25, with minimum 20 and maximum 30 |
| ContinentSummary.PartitionCoversInput | weather_report/report.py:39-41 | groups under distinct keys that cover every continent have sizes adding up to the number of readings |
| ContinentSummary.FormatContinentSummary | weather_report/report.py:38-57 | there are no blocks iff there are no readings; continents appear in strictly ascending order and are exactly the readings' continents; each block counts its non-empty group, has min ≤ avg ≤ max, and bounds every reading on its continent; each block holds exactly the figures of its continent's readings; the counts add up to the number of readings |

## Left out

- The HTTP request is left out: URL, query parameters, the 10-second timeout, `raise_for_status` and JSON decoding. It is network I/O, and its result is the `Response` parameter of `FetchWeather`.
- Numeric strings are left out: `float()` accepts strings such as `"12.5"`, and `int()` accepts integer strings such as `"12"`. The model treats every JSON value that is neither a number nor a boolean as unconvertible.
- IEEE float rounding, NaN and infinities are left out. Numbers are `real`.
- Text rendering is left out: the fixed-width padding of rows, `.1f`/`.0f` formatting, the `°C` suffixes and `temperature_display`. The reports are sequences of structured lines that carry the values; only the table header's padding is modelled.
- `format_single_report` is left out. It is presentation text with no logic.
- `generate_full_report` is left out. It is string assembly around a wall-clock timestamp.
- The REST API and the command-line interface are left out. They are routing, argument parsing, printing and exit codes.
- The country, city and region lookups are not part of this model.
