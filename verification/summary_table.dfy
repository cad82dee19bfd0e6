/**
 * `format_summary_table`: a header, a rule of dashes as wide as the header,
 * then one row per reading in input order. Numbers are kept as values; their
 * fixed-point text rendering is not modelled.
 */
module SummaryTable {
  import opened Text
  import opened Conditions
  import opened WeatherService

  /** The header line: each column title left-aligned in its column width, one space apart. */
  const TableHeader: string :=
    PadRight("Country", 40) + " " + PadRight("Capital", 25) + " "
    + PadRight("Temp (C)", 10) + " " + PadRight("Temp (F)", 10) + " "
    + PadRight("Humidity", 10) + " " + PadRight("Wind (km/h)", 12) + " "
    + PadRight("Condition", 15)

  /** The header is 128 characters wide and starts with the first column title. */
  lemma TableHeaderShape()
    ensures |TableHeader| == 128
    ensures TableHeader[..7] == "Country"
  {
    assert TableHeader[..7] == PadRight("Country", 40)[..7];
  }

  datatype TableLine =
    | HeaderLine(text: string)
    | SeparatorLine(text: string)
    | Row(
        country: string,
        capital: string,
        celsius: real,
        fahrenheit: real,
        humidity: int,
        windKmh: real,
        condition: string)

  function RowOf(w: Reading): TableLine
  {
    Row(w.country, w.capital, w.temperatureCelsius, w.temperatureFahrenheit,
        w.humidity, w.windSpeedKmh, DisplayValue(w.condition))
  }

  /** One row per reading, in input order. */
  function Rows(ws: seq<Reading>): seq<TableLine>
  {
    seq(|ws|, i requires 0 <= i < |ws| => RowOf(ws[i]))
  }

  function FormatSummaryTable(ws: seq<Reading>): (lines: seq<TableLine>)
    ensures |lines| == |ws| + 2
    ensures lines[0] == HeaderLine(TableHeader)
    ensures lines[1].SeparatorLine? && |lines[1].text| == |TableHeader|
    ensures forall i :: 0 <= i < |lines[1].text| ==> lines[1].text[i] == '-'
    ensures forall i :: 0 <= i < |ws| ==>
      && lines[i + 2].Row?
      && lines[i + 2].country == ws[i].country
      && lines[i + 2].capital == ws[i].capital
      && lines[i + 2].celsius == ws[i].temperatureCelsius
      && lines[i + 2].fahrenheit == ws[i].temperatureFahrenheit
      && lines[i + 2].humidity == ws[i].humidity
      && lines[i + 2].windKmh == ws[i].windSpeedKmh
      && lines[i + 2].condition == DisplayValue(ws[i].condition)
  {
    [HeaderLine(TableHeader), SeparatorLine(Repeat('-', |TableHeader|))]
    + Rows(ws)
  }

  /** Only the first two lines are not rows, so an empty list gives exactly two lines. */
  lemma {:induction false} RowsAreTheReadings(ws: seq<Reading>)
    ensures |FormatSummaryTable(ws)| == 2 <==> |ws| == 0
    ensures forall i :: 0 <= i < |FormatSummaryTable(ws)| ==> (FormatSummaryTable(ws)[i].Row? <==> 2 <= i)
  {
  }
}
