/**
 * `find_extremes` and `format_extremes`: the hottest, coldest, most humid and
 * windiest reading, chosen the way Python's `max`/`min` with a `key` choose
 * (the first element that attains the extreme).
 */
module Extremes {
  import opened Optional
  import opened WeatherService

  /** Position `k` holds the first element of `s` whose key is the largest. */
  predicate IsFirstMaxAt<T>(s: seq<T>, key: T -> real, k: int)
  {
    && 0 <= k < |s|
    && (forall i :: 0 <= i < |s| ==> key(s[i]) <= key(s[k]))
    && (forall i :: 0 <= i < k ==> key(s[i]) < key(s[k]))
  }

  /** Position `k` holds the first element of `s` whose key is the smallest. */
  predicate IsFirstMinAt<T>(s: seq<T>, key: T -> real, k: int)
  {
    && 0 <= k < |s|
    && (forall i :: 0 <= i < |s| ==> key(s[k]) <= key(s[i]))
    && (forall i :: 0 <= i < k ==> key(s[k]) < key(s[i]))
  }

  /**
   * `max(s, key=key)`: scans left to right and replaces the best so far only
   * by a strictly larger key.
   */
  function ArgMax<T>(s: seq<T>, key: T -> real): (k: nat)
    requires |s| > 0
    ensures IsFirstMaxAt(s, key, k)
    decreases |s|
  {
    if |s| == 1 then 0
    else
      var k := ArgMax(s[..|s| - 1], key);
      if key(s[k]) < key(s[|s| - 1]) then |s| - 1 else k
  }

  /** `min(s, key=key)`: replaces the best so far only by a strictly smaller key. */
  function ArgMin<T>(s: seq<T>, key: T -> real): (k: nat)
    requires |s| > 0
    ensures IsFirstMinAt(s, key, k)
    decreases |s|
  {
    if |s| == 1 then 0
    else
      var k := ArgMin(s[..|s| - 1], key);
      if key(s[|s| - 1]) < key(s[k]) then |s| - 1 else k
  }

  /** There is only one first maximum, so the contract of `ArgMax` fixes its answer. */
  lemma FirstMaxUnique<T>(s: seq<T>, key: T -> real, k1: int, k2: int)
    requires IsFirstMaxAt(s, key, k1) && IsFirstMaxAt(s, key, k2)
    ensures k1 == k2
  {
    assert key(s[k1]) == key(s[k2]);
  }

  /** There is only one first minimum. */
  lemma FirstMinUnique<T>(s: seq<T>, key: T -> real, k1: int, k2: int)
    requires IsFirstMinAt(s, key, k1) && IsFirstMinAt(s, key, k2)
    ensures k1 == k2
  {
    assert key(s[k1]) == key(s[k2]);
  }

  function Temperature(w: Reading): real
  {
    w.temperatureCelsius
  }

  function Humidity(w: Reading): real
  {
    w.humidity as real
  }

  function WindSpeed(w: Reading): real
  {
    w.windSpeedKmh
  }

  /** The result of `find_extremes`: one optional reading per key. */
  datatype Extremes = Extremes(
    hottest: Option<Reading>,
    coldest: Option<Reading>,
    mostHumid: Option<Reading>,
    windiest: Option<Reading>)

  /** `w` is the reading some first-maximum position of `ws` holds. */
  predicate FirstMaxIs(ws: seq<Reading>, key: Reading -> real, w: Option<Reading>)
  {
    w.Some? && exists k | 0 <= k < |ws| :: IsFirstMaxAt(ws, key, k) && ws[k] == w.value
  }

  predicate FirstMinIs(ws: seq<Reading>, key: Reading -> real, w: Option<Reading>)
  {
    w.Some? && exists k | 0 <= k < |ws| :: IsFirstMinAt(ws, key, k) && ws[k] == w.value
  }

  function FindExtremes(ws: seq<Reading>): (e: Extremes)
    ensures |ws| == 0 <==> e == Extremes(None, None, None, None)
    ensures |ws| > 0 ==>
      && FirstMaxIs(ws, Temperature, e.hottest)
      && FirstMinIs(ws, Temperature, e.coldest)
      && FirstMaxIs(ws, Humidity, e.mostHumid)
      && FirstMaxIs(ws, WindSpeed, e.windiest)
  {
    if |ws| == 0 then Extremes(None, None, None, None)
    else
      var hot := ArgMax(ws, Temperature);
      var cold := ArgMin(ws, Temperature);
      var humid := ArgMax(ws, Humidity);
      var windy := ArgMax(ws, WindSpeed);
      Extremes(Some(ws[hot]), Some(ws[cold]), Some(ws[humid]), Some(ws[windy]))
  }

  /** The hottest reading is a member of the list and no member is hotter; likewise for the others. */
  lemma {:induction false} ExtremesAreBounds(ws: seq<Reading>, w: Reading)
    requires w in ws
    ensures
      var e := FindExtremes(ws);
      && e.hottest.Some? && e.hottest.value in ws && w.temperatureCelsius <= e.hottest.value.temperatureCelsius
      && e.coldest.Some? && e.coldest.value in ws && e.coldest.value.temperatureCelsius <= w.temperatureCelsius
      && e.mostHumid.Some? && e.mostHumid.value in ws && w.humidity <= e.mostHumid.value.humidity
      && e.windiest.Some? && e.windiest.value in ws && w.windSpeedKmh <= e.windiest.value.windSpeedKmh
  {
    var i :| 0 <= i < |ws| && ws[i] == w;
    var hot := ArgMax(ws, Temperature);
    var cold := ArgMin(ws, Temperature);
    var humid := ArgMax(ws, Humidity);
    var windy := ArgMax(ws, WindSpeed);
    assert FindExtremes(ws) == Extremes(Some(ws[hot]), Some(ws[cold]), Some(ws[humid]), Some(ws[windy]));
    assert Temperature(ws[i]) <= Temperature(ws[hot]);
    assert Temperature(ws[cold]) <= Temperature(ws[i]);
    assert Humidity(ws[i]) <= Humidity(ws[humid]);
    assert WindSpeed(ws[i]) <= WindSpeed(ws[windy]);
  }

  /** A single reading is every extreme at once. */
  lemma SingletonIsEveryExtreme(w: Reading)
    ensures FindExtremes([w]) == Extremes(Some(w), Some(w), Some(w), Some(w))
  {
  }

  /** One line of the extremes section, before text rendering. */
  datatype ExtremesLine =
    | NoData
    | Banner
    | Rule
    | HottestLine(country: string, capital: string, celsius: real)
    | ColdestLine(country: string, capital: string, celsius: real)
    | MostHumidLine(country: string, capital: string, humidity: int)
    | WindiestLine(country: string, capital: string, windKmh: real)

  /**
   * A record is always truthy in Python, so `if not any(extremes.values())`
   * holds exactly when every extreme is `None`.
   */
  predicate AnyPresent(e: Extremes)
  {
    e.hottest.Some? || e.coldest.Some? || e.mostHumid.Some? || e.windiest.Some?
  }

  /** `ExtremesAreBounds` for every member at once. */
  lemma ExtremesBoundEveryReading(ws: seq<Reading>)
    requires |ws| > 0
    ensures
      var e := FindExtremes(ws);
      forall w :: w in ws ==>
        && w.temperatureCelsius <= e.hottest.value.temperatureCelsius
        && e.coldest.value.temperatureCelsius <= w.temperatureCelsius
        && w.humidity <= e.mostHumid.value.humidity
        && w.windSpeedKmh <= e.windiest.value.windSpeedKmh
  {
    forall w | w in ws
      ensures
        var e := FindExtremes(ws);
        && w.temperatureCelsius <= e.hottest.value.temperatureCelsius
        && e.coldest.value.temperatureCelsius <= w.temperatureCelsius
        && w.humidity <= e.mostHumid.value.humidity
        && w.windSpeedKmh <= e.windiest.value.windSpeedKmh
    {
      ExtremesAreBounds(ws, w);
    }
  }

  function FormatExtremes(ws: seq<Reading>): (lines: seq<ExtremesLine>)
    ensures lines == [NoData] <==> |ws| == 0
    ensures |ws| > 0 ==>
      && |lines| == 6
      && lines[0] == Banner && lines[1] == Rule
      && lines[2].HottestLine? && lines[3].ColdestLine?
      && lines[4].MostHumidLine? && lines[5].WindiestLine?
      && (forall w :: w in ws ==> w.temperatureCelsius <= lines[2].celsius)
      && (forall w :: w in ws ==> lines[3].celsius <= w.temperatureCelsius)
      && (forall w :: w in ws ==> w.humidity <= lines[4].humidity)
      && (forall w :: w in ws ==> w.windSpeedKmh <= lines[5].windKmh)
    ensures |ws| > 0 ==>
      var e := FindExtremes(ws);
      && lines[2] == HottestLine(e.hottest.value.country, e.hottest.value.capital, e.hottest.value.temperatureCelsius)
      && lines[3] == ColdestLine(e.coldest.value.country, e.coldest.value.capital, e.coldest.value.temperatureCelsius)
      && lines[4] == MostHumidLine(e.mostHumid.value.country, e.mostHumid.value.capital, e.mostHumid.value.humidity)
      && lines[5] == WindiestLine(e.windiest.value.country, e.windiest.value.capital, e.windiest.value.windSpeedKmh)
  {
    var e := FindExtremes(ws);
    if !AnyPresent(e) then [NoData]
    else
      ExtremesBoundEveryReading(ws);
      [Banner, Rule]
      + (match e.hottest case Some(w) => [HottestLine(w.country, w.capital, w.temperatureCelsius)] case None => [])
      + (match e.coldest case Some(w) => [ColdestLine(w.country, w.capital, w.temperatureCelsius)] case None => [])
      + (match e.mostHumid case Some(w) => [MostHumidLine(w.country, w.capital, w.humidity)] case None => [])
      + (match e.windiest case Some(w) => [WindiestLine(w.country, w.capital, w.windSpeedKmh)] case None => [])
  }
}
