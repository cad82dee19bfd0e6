/**
 * `format_continent_summary`: group the readings by continent, then, for each
 * continent in ascending name order, report how many readings it has and the
 * average, lowest and highest temperature and the average humidity.
 * Each continent's five printed lines are one `ContinentBlock` here.
 */
module ContinentSummary {
  import opened StrOrder
  import opened WeatherService

  function Continents(ws: seq<Reading>): set<string>
  {
    set w | w in ws :: w.continent
  }

  lemma ContinentsSnoc(ws: seq<Reading>)
    requires |ws| > 0
    ensures Continents(ws) == Continents(ws[..|ws| - 1]) + {ws[|ws| - 1].continent}
  {
    assert ws == ws[..|ws| - 1] + [ws[|ws| - 1]];
    assert forall w :: w in ws <==> w in ws[..|ws| - 1] || w == ws[|ws| - 1];
  }

  /** The readings of continent `c`, in input order: what a partition by continent puts in `c`'s part. */
  function OfContinent(ws: seq<Reading>, c: string): (g: seq<Reading>)
    ensures |g| <= |ws|
    ensures forall w :: w in g ==> w in ws && w.continent == c
  {
    if |ws| == 0 then []
    else
      var init := ws[..|ws| - 1];
      var last := ws[|ws| - 1];
      OfContinent(init, c) + (if last.continent == c then [last] else [])
  }

  /** A continent's part is non-empty exactly when some reading is on that continent. */
  lemma {:induction false} OfContinentNonEmpty(ws: seq<Reading>, c: string)
    ensures |OfContinent(ws, c)| > 0 <==> c in Continents(ws)
    decreases |ws|
  {
    if |ws| > 0 {
      OfContinentNonEmpty(ws[..|ws| - 1], c);
      ContinentsSnoc(ws);
    }
  }

  /** Every reading on continent `c` is in `c`'s part. */
  lemma {:induction false} OfContinentComplete(ws: seq<Reading>, w: Reading)
    requires w in ws
    ensures w in OfContinent(ws, w.continent)
    decreases |ws|
  {
    var init := ws[..|ws| - 1];
    if w != ws[|ws| - 1] {
      assert ws == init + [ws[|ws| - 1]];
      assert w in init;
      OfContinentComplete(init, w);
    }
  }

  /** The dictionary `format_continent_summary` builds: keys in insertion order, and the list appended to under each key. */
  datatype Groups = Groups(order: seq<string>, members: map<string, seq<Reading>>)

  predicate Distinct(s: seq<string>)
  {
    forall i, j :: 0 <= i < j < |s| ==> s[i] != s[j]
  }

  /** `g` is the dictionary the grouping loop has built after reading `ws`. */
  predicate GroupsOf(ws: seq<Reading>, g: Groups)
  {
    && Distinct(g.order)
    && Elements(g.order) == g.members.Keys == Continents(ws)
    && forall c :: c in g.members ==> g.members[c] == OfContinent(ws, c)
  }

  /** One iteration of the loop: `groups.setdefault(w.continent, []).append(w)`. */
  function AddReading(g: Groups, w: Reading): Groups
  {
    if w.continent in g.members then
      Groups(g.order, g.members[w.continent := g.members[w.continent] + [w]])
    else
      Groups(g.order + [w.continent], g.members[w.continent := [w]])
  }

  lemma OfContinentSnoc(ws: seq<Reading>, c: string)
    requires |ws| > 0
    ensures OfContinent(ws, c) == OfContinent(ws[..|ws| - 1], c) + (if ws[|ws| - 1].continent == c then [ws[|ws| - 1]] else [])
  {
  }

  lemma AddReadingKeepsMembers(ws: seq<Reading>, g: Groups)
    requires |ws| > 0
    requires ws[|ws| - 1].continent !in g.members ==> |OfContinent(ws[..|ws| - 1], ws[|ws| - 1].continent)| == 0
    requires forall c :: c in g.members ==> g.members[c] == OfContinent(ws[..|ws| - 1], c)
    ensures forall c :: c in AddReading(g, ws[|ws| - 1]).members ==> AddReading(g, ws[|ws| - 1]).members[c] == OfContinent(ws, c)
  {
    var w := ws[|ws| - 1];
    var h := AddReading(g, w);
    forall c | c in h.members
      ensures h.members[c] == OfContinent(ws, c)
    {
      OfContinentSnoc(ws, c);
    }
  }

  lemma AddReadingKeepsDistinct(g: Groups, w: Reading)
    requires Distinct(g.order) && Elements(g.order) == g.members.Keys
    ensures Distinct(AddReading(g, w).order)
  {
  }

  lemma AddReadingKeepsKeys(ws: seq<Reading>, g: Groups)
    requires |ws| > 0
    requires Elements(g.order) == g.members.Keys == Continents(ws[..|ws| - 1])
    ensures Elements(AddReading(g, ws[|ws| - 1]).order) == AddReading(g, ws[|ws| - 1]).members.Keys == Continents(ws)
  {
    var w := ws[|ws| - 1];
    ContinentsSnoc(ws);
    if w.continent !in g.members {
      assert Elements(g.order + [w.continent]) == Elements(g.order) + {w.continent};
    }
  }

  lemma AddReadingKeepsGroups(ws: seq<Reading>, g: Groups)
    requires |ws| > 0 && GroupsOf(ws[..|ws| - 1], g)
    ensures GroupsOf(ws, AddReading(g, ws[|ws| - 1]))
  {
    var init := ws[..|ws| - 1];
    var w := ws[|ws| - 1];
    OfContinentNonEmpty(init, w.continent);
    AddReadingKeepsDistinct(g, w);
    AddReadingKeepsKeys(ws, g);
    AddReadingKeepsMembers(ws, g);
  }

  /** The `setdefault(...).append(w)` loop. */
  function GroupByContinent(ws: seq<Reading>): (g: Groups)
    ensures Distinct(g.order)
    ensures Elements(g.order) == g.members.Keys == Continents(ws)
    ensures forall c :: c in g.members ==> g.members[c] == OfContinent(ws, c)
    decreases |ws|
  {
    if |ws| == 0 then Groups([], map[])
    else
      var g := GroupByContinent(ws[..|ws| - 1]);
      AddReadingKeepsGroups(ws, g);
      AddReading(g, ws[|ws| - 1])
  }

  function Sum(xs: seq<real>): real
  {
    if |xs| == 0 then 0.0 else Sum(xs[..|xs| - 1]) + xs[|xs| - 1]
  }

  /** Python's `min` over a non-empty list of numbers. */
  function MinOf(xs: seq<real>): (m: real)
    requires |xs| > 0
    ensures m in xs
    ensures forall i :: 0 <= i < |xs| ==> m <= xs[i]
  {
    if |xs| == 1 then xs[0]
    else
      var m := MinOf(xs[..|xs| - 1]);
      if xs[|xs| - 1] < m then xs[|xs| - 1] else m
  }

  /** Python's `max` over a non-empty list of numbers. */
  function MaxOf(xs: seq<real>): (m: real)
    requires |xs| > 0
    ensures m in xs
    ensures forall i :: 0 <= i < |xs| ==> xs[i] <= m
  {
    if |xs| == 1 then xs[0]
    else
      var m := MaxOf(xs[..|xs| - 1]);
      if m < xs[|xs| - 1] then xs[|xs| - 1] else m
  }

  /** A sum lies between the count times the lowest and the count times the highest term. */
  lemma {:induction false} SumBetween(xs: seq<real>, lo: real, hi: real)
    requires forall i :: 0 <= i < |xs| ==> lo <= xs[i] <= hi
    ensures |xs| as real * lo <= Sum(xs) <= |xs| as real * hi
    decreases |xs|
  {
    if |xs| > 0 {
      var n := |xs| - 1;
      SumBetween(xs[..n], lo, hi);
      assert n as real * lo + lo == |xs| as real * lo;
      assert n as real * hi + hi == |xs| as real * hi;
    }
  }

  /** The mean of a non-empty list lies between its minimum and its maximum. */
  lemma {:induction false} MeanBetween(xs: seq<real>)
    requires |xs| > 0
    ensures MinOf(xs) <= Sum(xs) / |xs| as real <= MaxOf(xs)
  {
    var lo, hi, total := MinOf(xs), MaxOf(xs), Sum(xs);
    SumBetween(xs, lo, hi);
    QuotientBetween(total, |xs|, lo, hi);
  }

  lemma QuotientBetween(s: real, count: nat, lo: real, hi: real)
    requires count > 0 && count as real * lo <= s <= count as real * hi
    ensures lo <= s / count as real <= hi
  {
    var n := count as real;
    var q := s / n;
    assert q * n == s;
    assert n * (q - lo) >= 0.0;
    assert n * (hi - q) >= 0.0;
  }

  /** `[w.temperature_celsius for w in data]`. */
  function Temperatures(g: seq<Reading>): seq<real>
  {
    seq(|g|, i requires 0 <= i < |g| => g[i].temperatureCelsius)
  }

  /** `w.humidity for w in data`; integers are exact as reals, so their sum is `format_continent_summary`'s integer sum. */
  function Humidities(g: seq<Reading>): seq<real>
  {
    seq(|g|, i requires 0 <= i < |g| => g[i].humidity as real)
  }

  /** One continent's part of the summary. */
  datatype ContinentBlock = ContinentBlock(
    continent: string,
    count: nat,
    avgTemperature: real,
    minTemperature: real,
    maxTemperature: real,
    avgHumidity: real)

  /**
   * The figures for one non-empty group: its size, the mean, lowest and
   * highest temperature, and the mean humidity. The mean temperature lies
   * between the extremes (`HumidityBetween` bounds the mean humidity).
   */
  function Summarize(c: string, g: seq<Reading>): (b: ContinentBlock)
    requires |g| > 0
    ensures b.continent == c && b.count == |g|
    ensures b.avgTemperature == Sum(Temperatures(g)) / |g| as real
    ensures b.minTemperature == MinOf(Temperatures(g)) && b.maxTemperature == MaxOf(Temperatures(g))
    ensures b.avgHumidity == Sum(Humidities(g)) / |g| as real
    ensures b.minTemperature <= b.avgTemperature <= b.maxTemperature
  {
    var temps := Temperatures(g);
    var n := |g| as real;
    MeanBetween(temps);
    ContinentBlock(c, |g|, Sum(temps) / n, MinOf(temps), MaxOf(temps), Sum(Humidities(g)) / n)
  }

  /** The average humidity lies between the group's lowest and highest humidity. */
  lemma {:induction false} HumidityBetween(c: string, g: seq<Reading>)
    requires |g| > 0
    ensures MinOf(Humidities(g)) <= Summarize(c, g).avgHumidity <= MaxOf(Humidities(g))
  {
    MeanBetween(Humidities(g));
  }

  lemma {:induction false} TemperaturesBound(g: seq<Reading>)
    requires |g| > 0
    ensures forall w :: w in g ==> MinOf(Temperatures(g)) <= w.temperatureCelsius <= MaxOf(Temperatures(g))
    ensures exists i :: 0 <= i < |g| && g[i].temperatureCelsius == MinOf(Temperatures(g))
    ensures exists i :: 0 <= i < |g| && g[i].temperatureCelsius == MaxOf(Temperatures(g))
  {
    var temps := Temperatures(g);
    forall w | w in g
      ensures MinOf(temps) <= w.temperatureCelsius <= MaxOf(temps)
    {
      var i :| 0 <= i < |g| && g[i] == w;
      assert temps[i] == w.temperatureCelsius;
    }
    var lo :| 0 <= lo < |temps| && temps[lo] == MinOf(temps);
    var hi :| 0 <= hi < |temps| && temps[hi] == MaxOf(temps);
    assert g[lo].temperatureCelsius == MinOf(temps);
    assert g[hi].temperatureCelsius == MaxOf(temps);
  }

  /** Two readings at 20 and 30 degrees average 25. */
  lemma AverageExample(a: Reading, b: Reading)
    requires a.temperatureCelsius == 20.0 && b.temperatureCelsius == 30.0
    ensures Summarize("Asia", [a, b]).avgTemperature == 25.0
    ensures Summarize("Asia", [a, b]).minTemperature == 20.0
    ensures Summarize("Asia", [a, b]).maxTemperature == 30.0
  {
    var ts := Temperatures([a, b]);
    assert ts == [20.0, 30.0];
    assert ts[..1] == [20.0];
    assert ts[..1][..0] == [];
    assert Sum(ts[..1]) == 20.0;
    assert Sum(ts) == 50.0;
  }

  /** The number of readings the blocks account for. */
  function TotalCount(blocks: seq<ContinentBlock>): nat
  {
    if |blocks| == 0 then 0 else blocks[0].count + TotalCount(blocks[1..])
  }

  /** The sizes of the parts named by `keys`. */
  function PartSizes(keys: seq<string>, ws: seq<Reading>): nat
  {
    if |keys| == 0 then 0 else |OfContinent(ws, keys[0])| + PartSizes(keys[1..], ws)
  }

  /** How many times `c` occurs in `keys`. */
  function Occurrences(keys: seq<string>, c: string): nat
  {
    if |keys| == 0 then 0 else (if keys[0] == c then 1 else 0) + Occurrences(keys[1..], c)
  }

  lemma {:induction false} OccursOnce(keys: seq<string>, c: string)
    requires Distinct(keys) && c in keys
    ensures Occurrences(keys, c) == 1
    decreases |keys|
  {
    if keys[0] == c {
      NoOccurrence(keys[1..], c);
    } else {
      OccursOnce(keys[1..], c);
    }
  }

  lemma {:induction false} NoOccurrence(keys: seq<string>, c: string)
    requires c !in keys
    ensures Occurrences(keys, c) == 0
    decreases |keys|
  {
    if |keys| > 0 {
      NoOccurrence(keys[1..], c);
    }
  }

  lemma {:induction false} PartSizesOfNothing(keys: seq<string>)
    ensures PartSizes(keys, []) == 0
    decreases |keys|
  {
    if |keys| > 0 {
      PartSizesOfNothing(keys[1..]);
    }
  }

  /** Adding one reading grows exactly the parts named by its continent. */
  lemma {:induction false} PartSizesSnoc(keys: seq<string>, ws: seq<Reading>)
    requires |ws| > 0
    ensures PartSizes(keys, ws) == PartSizes(keys, ws[..|ws| - 1]) + Occurrences(keys, ws[|ws| - 1].continent)
    decreases |keys|
  {
    if |keys| > 0 {
      PartSizesSnoc(keys[1..], ws);
    }
  }

  /** Parts named by distinct keys that cover every continent hold every reading exactly once. */
  lemma {:induction false} PartitionCoversInput(keys: seq<string>, ws: seq<Reading>)
    requires Distinct(keys)
    requires Continents(ws) <= Elements(keys)
    ensures PartSizes(keys, ws) == |ws|
    decreases |ws|
  {
    if |ws| == 0 {
      PartSizesOfNothing(keys);
    } else {
      var init := ws[..|ws| - 1];
      ContinentsSnoc(ws);
      PartitionCoversInput(keys, init);
      PartSizesSnoc(keys, ws);
      OccursOnce(keys, ws[|ws| - 1].continent);
    }
  }

  lemma {:induction false} TotalCountIsPartSizes(blocks: seq<ContinentBlock>, keys: seq<string>, ws: seq<Reading>)
    requires |blocks| == |keys|
    requires forall i :: 0 <= i < |keys| ==> blocks[i].count == |OfContinent(ws, keys[i])|
    ensures TotalCount(blocks) == PartSizes(keys, ws)
    decreases |keys|
  {
    if |keys| > 0 {
      TotalCountIsPartSizes(blocks[1..], keys[1..], ws);
    }
  }

  lemma StrictlySortedIsDistinct(s: seq<string>)
    requires StrictlySorted(s)
    ensures Distinct(s)
  {
    forall i, j | 0 <= i < j < |s|
      ensures s[i] != s[j]
    {
      BelowIrreflexive(s[i]);
    }
  }

  /** Every key of the sorted continent list names a non-empty part. */
  lemma {:induction false} KeysArePopulated(ws: seq<Reading>, keys: seq<string>)
    requires Elements(keys) == Continents(ws)
    ensures forall k :: k in keys ==> |OfContinent(ws, k)| > 0
  {
    forall k | k in keys
      ensures |OfContinent(ws, k)| > 0
    {
      assert k in Elements(keys);
      OfContinentNonEmpty(ws, k);
    }
  }

  /** The blocks a sorted continent list yields: one per key, figures from that key's part. */
  predicate BuiltFrom(ws: seq<Reading>, keys: seq<string>, blocks: seq<ContinentBlock>)
  {
    && (forall k :: k in keys ==> |OfContinent(ws, k)| > 0)
    && |blocks| == |keys|
    && (forall i :: 0 <= i < |keys| ==> blocks[i] == Summarize(keys[i], OfContinent(ws, keys[i])))
  }

  lemma {:induction false} BlocksFollowKeys(ws: seq<Reading>, keys: seq<string>, blocks: seq<ContinentBlock>)
    requires BuiltFrom(ws, keys, blocks)
    ensures forall i :: 0 <= i < |blocks| ==>
      && blocks[i].continent == keys[i]
      && blocks[i].count == |OfContinent(ws, keys[i])| > 0
      && blocks[i].minTemperature <= blocks[i].avgTemperature <= blocks[i].maxTemperature
  {
    forall i | 0 <= i < |blocks|
      ensures blocks[i].continent == keys[i]
      ensures blocks[i].count == |OfContinent(ws, keys[i])| > 0
      ensures blocks[i].minTemperature <= blocks[i].avgTemperature <= blocks[i].maxTemperature
    {
      assert keys[i] in keys;
    }
  }

  function ContinentsOf(blocks: seq<ContinentBlock>): set<string>
  {
    set b | b in blocks :: b.continent
  }

  /** Blocks that follow the keys one for one name exactly the keys. */
  lemma ContinentsOfKeys(keys: seq<string>, blocks: seq<ContinentBlock>)
    requires |blocks| == |keys|
    requires forall i :: 0 <= i < |keys| ==> blocks[i].continent == keys[i]
    ensures ContinentsOf(blocks) == Elements(keys)
  {
    forall c | c in Elements(keys)
      ensures c in ContinentsOf(blocks)
    {
      var i :| 0 <= i < |keys| && keys[i] == c;
      assert blocks[i] in blocks;
    }
    forall c | c in ContinentsOf(blocks)
      ensures c in Elements(keys)
    {
      var b :| b in blocks && b.continent == c;
      var i :| 0 <= i < |blocks| && blocks[i] == b;
      assert keys[i] in keys;
    }
  }

  lemma {:induction false} BlocksCoverContinents(ws: seq<Reading>, keys: seq<string>, blocks: seq<ContinentBlock>)
    requires BuiltFrom(ws, keys, blocks) && Elements(keys) == Continents(ws)
    ensures ContinentsOf(blocks) == Continents(ws)
  {
    BlocksFollowKeys(ws, keys, blocks);
    ContinentsOfKeys(keys, blocks);
  }

  lemma {:induction false} BlocksBoundTemperatures(ws: seq<Reading>, keys: seq<string>, blocks: seq<ContinentBlock>)
    requires BuiltFrom(ws, keys, blocks)
    ensures forall i, w :: 0 <= i < |blocks| && w in ws && w.continent == blocks[i].continent ==>
      blocks[i].minTemperature <= w.temperatureCelsius <= blocks[i].maxTemperature
  {
    BlocksFollowKeys(ws, keys, blocks);
    forall i, w | 0 <= i < |blocks| && w in ws && w.continent == blocks[i].continent
      ensures blocks[i].minTemperature <= w.temperatureCelsius <= blocks[i].maxTemperature
    {
      assert keys[i] in keys;
      OfContinentComplete(ws, w);
      TemperaturesBound(OfContinent(ws, keys[i]));
    }
  }

  lemma {:induction false} BlocksCountEveryReading(ws: seq<Reading>, keys: seq<string>, blocks: seq<ContinentBlock>)
    requires BuiltFrom(ws, keys, blocks) && StrictlySorted(keys) && Elements(keys) == Continents(ws)
    ensures TotalCount(blocks) == |ws|
  {
    BlocksFollowKeys(ws, keys, blocks);
    StrictlySortedIsDistinct(keys);
    PartitionCoversInput(keys, ws);
    TotalCountIsPartSizes(blocks, keys, ws);
  }

  /**
   * `b` reports the part of `ws` on its continent: that part's size, which is
   * not zero, and an average temperature between a lowest and a highest that
   * bound every reading of the part.
   */
  predicate Describes(ws: seq<Reading>, b: ContinentBlock)
  {
    && b.count == |OfContinent(ws, b.continent)| > 0
    && b.minTemperature <= b.avgTemperature <= b.maxTemperature
    && (forall w :: w in ws && w.continent == b.continent ==>
          b.minTemperature <= w.temperatureCelsius <= b.maxTemperature)
  }

  lemma {:induction false} BlocksDescribeParts(ws: seq<Reading>, keys: seq<string>, blocks: seq<ContinentBlock>)
    requires BuiltFrom(ws, keys, blocks) && Elements(keys) == Continents(ws)
    ensures forall i :: 0 <= i < |blocks| ==> Describes(ws, blocks[i])
  {
    BlocksSummarizeParts(ws, keys, blocks);
    BlocksBoundTemperatures(ws, keys, blocks);
  }

  /** Each block holds exactly the figures of its continent's part. */
  lemma {:induction false} BlocksAreSummaries(ws: seq<Reading>, keys: seq<string>, blocks: seq<ContinentBlock>)
    requires BuiltFrom(ws, keys, blocks)
    ensures forall i :: 0 <= i < |blocks| ==>
      |OfContinent(ws, blocks[i].continent)| > 0
      && blocks[i] == Summarize(blocks[i].continent, OfContinent(ws, blocks[i].continent))
  {
    BlocksFollowKeys(ws, keys, blocks);
  }

  function FormatContinentSummary(ws: seq<Reading>): (blocks: seq<ContinentBlock>)
    ensures |blocks| == 0 <==> |ws| == 0
    ensures forall i, j :: 0 <= i < j < |blocks| ==> Below(blocks[i].continent, blocks[j].continent)
    ensures ContinentsOf(blocks) == Continents(ws)
    ensures forall i :: 0 <= i < |blocks| ==> Describes(ws, blocks[i])
    ensures forall i :: 0 <= i < |blocks| ==>
      |OfContinent(ws, blocks[i].continent)| > 0
      && blocks[i] == Summarize(blocks[i].continent, OfContinent(ws, blocks[i].continent))
    ensures TotalCount(blocks) == |ws|
  {
    var groups := GroupByContinent(ws);
    var keys := Sort(groups.order);
    KeysArePopulated(ws, keys);
    KeysAreGroups(ws, groups, keys);
    var blocks := SummarizeGroups(groups.members, keys);
    assert BuiltFrom(ws, keys, blocks) by {
      GroupsArePartsBlocks(ws, groups.members, keys, blocks);
    }
    assert |blocks| == 0 <==> |ws| == 0 by {
      BlocksEmptyIffNoReadings(ws, keys, blocks);
    }
    assert forall i, j :: 0 <= i < j < |blocks| ==> Below(blocks[i].continent, blocks[j].continent) by {
      BlocksAscend(ws, keys, blocks);
    }
    assert forall i :: 0 <= i < |blocks| ==> Describes(ws, blocks[i]) by {
      BlocksDescribeParts(ws, keys, blocks);
    }
    assert ContinentsOf(blocks) == Continents(ws) by {
      BlocksCoverContinents(ws, keys, blocks);
    }
    assert forall i :: 0 <= i < |blocks| ==>
      |OfContinent(ws, blocks[i].continent)| > 0
      && blocks[i] == Summarize(blocks[i].continent, OfContinent(ws, blocks[i].continent)) by {
      BlocksAreSummaries(ws, keys, blocks);
    }
    assert TotalCount(blocks) == |ws| by {
      BlocksCountEveryReading(ws, keys, blocks);
    }
    blocks
  }

  /** One block per key, in key order, from the dictionary's list under that key. */
  function SummarizeGroups(members: map<string, seq<Reading>>, keys: seq<string>): (blocks: seq<ContinentBlock>)
    requires forall k :: k in keys ==> k in members && |members[k]| > 0
    ensures |blocks| == |keys|
    ensures forall i :: 0 <= i < |keys| ==> blocks[i].continent == keys[i] && blocks[i].count == |members[keys[i]]|
  {
    seq(|keys|, i requires 0 <= i < |keys| => Summarize(keys[i], members[keys[i]]))
  }

  lemma {:induction false} GroupsArePartsBlocks(
    ws: seq<Reading>, members: map<string, seq<Reading>>, keys: seq<string>, blocks: seq<ContinentBlock>)
    requires forall k :: k in keys ==> k in members && members[k] == OfContinent(ws, k)
    requires forall k :: k in keys ==> |OfContinent(ws, k)| > 0
    requires blocks == SummarizeGroups(members, keys)
    ensures BuiltFrom(ws, keys, blocks)
  {
    forall i | 0 <= i < |keys|
      ensures blocks[i] == Summarize(keys[i], OfContinent(ws, keys[i]))
    {
      assert keys[i] in keys;
    }
  }

  lemma {:induction false} KeysAreGroups(ws: seq<Reading>, groups: Groups, keys: seq<string>)
    requires Elements(keys) == groups.members.Keys
    requires forall c :: c in groups.members ==> groups.members[c] == OfContinent(ws, c)
    ensures forall k :: k in keys ==> k in groups.members && groups.members[k] == OfContinent(ws, k)
  {
    forall k | k in keys
      ensures k in groups.members && groups.members[k] == OfContinent(ws, k)
    {
      assert k in Elements(keys);
    }
  }

  lemma {:induction false} BlocksEmptyIffNoReadings(ws: seq<Reading>, keys: seq<string>, blocks: seq<ContinentBlock>)
    requires BuiltFrom(ws, keys, blocks) && Elements(keys) == Continents(ws)
    ensures |blocks| == 0 <==> |ws| == 0
  {
    FirstIsElement(keys);
    assert |ws| > 0 ==> ws[0].continent in Elements(keys);
  }

  lemma {:induction false} BlocksAscend(ws: seq<Reading>, keys: seq<string>, blocks: seq<ContinentBlock>)
    requires BuiltFrom(ws, keys, blocks) && StrictlySorted(keys)
    ensures forall i, j :: 0 <= i < j < |blocks| ==> Below(blocks[i].continent, blocks[j].continent)
  {
    BlocksFollowKeys(ws, keys, blocks);
  }

  lemma {:induction false} BlocksSummarizeParts(ws: seq<Reading>, keys: seq<string>, blocks: seq<ContinentBlock>)
    requires BuiltFrom(ws, keys, blocks) && Elements(keys) == Continents(ws)
    ensures forall i :: 0 <= i < |blocks| ==>
      && blocks[i].count == |OfContinent(ws, blocks[i].continent)| > 0
      && blocks[i].minTemperature <= blocks[i].avgTemperature <= blocks[i].maxTemperature
  {
    BlocksFollowKeys(ws, keys, blocks);
    assert forall i :: 0 <= i < |blocks| ==> keys[i] in Elements(keys);
  }
}
