/** The data preparation of the horizon delta charts: per country
    (`format_bar_delta_country`), per scenario against a shared or a
    per-scenario baseline (`format_bar_delta_multi_scenario`), and the
    transmission capacity built against the maximum per scenario
    (`format_transmission_capacity_multi_scenario`). */
module ScenarioDelta {
  import opened Wrappers
  import opened Tables
  import opened Rounding
  import opened Ordering

  // ------------------------------------------------------- aligned deltas

  /** The rows for the years `ys`, each the scenario's VALUE minus the
      base's, kept where the base has the year. */
  function CommonDelta(ys: seq<int>, base: seq<Record<int>>, scen: seq<Record<int>>): (d: seq<Record<int>>)
    ensures forall y :: y in KeysOf(d) <==> y in ys && y in KeysOf(base)
    ensures forall x :: x in d ==> x.value == Get(scen, x.key) - Get(base, x.key)
    ensures Distinct(ys) ==> DistinctKeys(d)
  {
    if ys == [] then []
    else
      var rest := CommonDelta(ys[1..], base, scen);
      assert ys == [ys[0]] + ys[1..];
      assert Distinct(ys) ==> ys[0] !in KeysOf(rest);
      if ys[0] in KeysOf(base) then [Record(ys[0], Get(scen, ys[0]) - Get(base, ys[0]))] + rest else rest
  }

  /** `df2 - df1` on the YEAR index: one row per year of both frames (a year
      of one frame only gives NaN). */
  function YearDelta(base: seq<Record<int>>, scen: seq<Record<int>>): (d: seq<Record<int>>)
    ensures DistinctKeys(d)
    ensures forall y :: y in KeysOf(d) <==> y in KeysOf(base) && y in KeysOf(scen)
    ensures forall x :: x in d ==> x.value == Get(scen, x.key) - Get(base, x.key)
  {
    KeysOfKeyList(scen);
    CommonDelta(Dedup(KeyList(scen)), base, scen)
  }

  /** `df.sum()`: the sum over the common years, NaN rows skipped. */
  function HorizonDelta(base: seq<Record<int>>, scen: seq<Record<int>>): real
  {
    Total(YearDelta(base, scen))
  }

  lemma {:induction false} CommonDeltaTotal(ys: seq<int>, base: seq<Record<int>>, scen: seq<Record<int>>)
    requires forall y :: y in ys ==> y in KeysOf(base)
    ensures Total(CommonDelta(ys, base, scen)) == SumGet(ys, scen) - SumGet(ys, base)
  {
    if ys != [] {
      assert ys[0] in ys;
      assert forall y :: y in ys[1..] ==> y in ys;
      CommonDeltaTotal(ys[1..], base, scen);
      var x := Record(ys[0], Get(scen, ys[0]) - Get(base, ys[0]));
      TotalConcat([x], CommonDelta(ys[1..], base, scen));
      assert Total([x]) == x.value by { assert [x][..0] == []; }
    }
  }

  /** With one row per year on each side and the same years on both, the
      horizon delta is the scenario's total minus the base's. */
  lemma HorizonDeltaMatched(base: seq<Record<int>>, scen: seq<Record<int>>)
    requires DistinctKeys(base) && DistinctKeys(scen)
    requires KeysOf(base) == KeysOf(scen)
    ensures HorizonDelta(base, scen) == Total(scen) - Total(base)
  {
    var ys := Dedup(KeyList(scen));
    KeysOfKeyList(scen);
    CommonDeltaTotal(ys, base, scen);
    SumGetTotal(ys, scen);
    SumGetTotal(ys, base);
  }

  // --------------------------------------------------------- per country

  /** The row the emission helper gives per (COUNTRY, YEAR). */
  type CountryRows = seq<Record<(string, int)>>

  /** `df.loc[df['COUNTRY'] == country][['YEAR', 'VALUE']].set_index('YEAR')`. */
  function ForCountry(rows: CountryRows, country: string): (r: seq<Record<int>>)
    ensures forall x :: x in r <==> Record((country, x.key), x.value) in rows
  {
    if rows == [] then []
    else
      var rest := ForCountry(rows[..|rows| - 1], country);
      var last := rows[|rows| - 1];
      assert rows == rows[..|rows| - 1] + [last];
      if last.key.0 == country then rest + [Record(last.key.1, last.value)] else rest
  }

  /** `list(df_in1['COUNTRY'].unique())`. */
  function Countries(rows: CountryRows): (cs: seq<string>)
    ensures Distinct(cs)
    ensures forall c :: c in cs <==> exists r :: r in rows && r.key.0 == c
  {
    var all := seq(|rows|, i requires 0 <= i < |rows| => rows[i].key.0);
    assert forall c :: (exists r :: r in rows && r.key.0 == c) ==> c in all by {
      forall c | exists r :: r in rows && r.key.0 == c ensures c in all {
        var r :| r in rows && r.key.0 == c;
        var i :| 0 <= i < |rows| && rows[i] == r;
        assert all[i] == c;
      }
    }
    Dedup(all)
  }

  /** `round(df.sum(), 3)` of one country. */
  function CountryTotal(df1: CountryRows, df2: CountryRows, c: string): real
  {
    RoundTo(HorizonDelta(ForCountry(df1, c), ForCountry(df2, c)), 3)
  }

  /** A country is kept exactly when its horizon delta is more than half of
      0.001 away from 0. */
  lemma CountryKeptIff(df1: CountryRows, df2: CountryRows, c: string)
    ensures CountryTotal(df1, df2, c) != 0.0 <==>
      HorizonDelta(ForCountry(df1, c), ForCountry(df2, c)) < -0.0005 ||
      HorizonDelta(ForCountry(df1, c), ForCountry(df2, c)) > 0.0005
  {
    ThousandthsKeptIff(HorizonDelta(ForCountry(df1, c), ForCountry(df2, c)));
  }

  lemma ThousandthsKeptIff(h: real)
    ensures RoundTo(h, 3) != 0.0 <==> h < -0.0005 || h > 0.0005
  {
    RoundToZeroIff(h, 3);
    assert Pow10(3) == 1000;
    assert HalfUnit(3) == 0.0005;
  }

  /** The countries of the base frame whose rounded horizon delta is not 0. */
  function KeptCountries(df1: CountryRows, df2: CountryRows, cs: seq<string>): seq<string>
  {
    if cs == [] then []
    else
      var rest := KeptCountries(df1, df2, cs[..|cs| - 1]);
      if CountryTotal(df1, df2, cs[|cs| - 1]) != 0.0 then rest + [cs[|cs| - 1]] else rest
  }

  lemma KeptCountriesStep(df1: CountryRows, df2: CountryRows, cs: seq<string>, i: nat)
    requires i < |cs|
    ensures KeptCountries(df1, df2, cs[..i + 1]) ==
      KeptCountries(df1, df2, cs[..i]) + (if CountryTotal(df1, df2, cs[i]) != 0.0 then [cs[i]] else [])
  {
    assert cs[..i + 1][..i] == cs[..i];
  }

  lemma {:induction false} KeptCountriesMembers(df1: CountryRows, df2: CountryRows, cs: seq<string>)
    ensures forall c :: c in KeptCountries(df1, df2, cs) <==> c in cs && CountryTotal(df1, df2, c) != 0.0
  {
    if cs != [] {
      KeptCountriesMembers(df1, df2, cs[..|cs| - 1]);
      assert cs == cs[..|cs| - 1] + [cs[|cs| - 1]];
    }
  }

  lemma KeyListSnoc(rows: seq<Record<string>>, x: Record<string>)
    ensures KeyList(rows + [x]) == KeyList(rows) + [x.key]
    ensures KeysOf(rows + [x]) == KeysOf(rows) + {x.key}
  {
    KeysOfSnoc(rows + [x]);
    assert (rows + [x])[..|rows|] == rows;
  }

  /** The loop of `format_bar_delta_country` over a list of countries: the
      per-year delta and the rounded total of every country whose total is
      not 0, in list order, and their count `n`. */
  method CountryLoop(df1: CountryRows, df2: CountryRows, countries: seq<string>)
    returns (totals: seq<Record<string>>, years: map<string, seq<Record<int>>>, n: nat)
    ensures KeyList(totals) == KeptCountries(df1, df2, countries)
    ensures n == |totals|
    ensures forall x :: x in totals ==> x.value == CountryTotal(df1, df2, x.key) && x.value != 0.0
    ensures years.Keys == KeysOf(totals)
    ensures forall c :: c in years ==> years[c] == YearDelta(ForCountry(df1, c), ForCountry(df2, c))
  {
    totals := [];
    years := map[];
    n := 0;
    var i := 0;
    while i < |countries|
      invariant 0 <= i <= |countries|
      invariant n == |totals|
      invariant CountriesSoFar(df1, df2, countries[..i], totals, years)
    {
      var c := countries[i];
      var d := YearDelta(ForCountry(df1, c), ForCountry(df2, c));
      var t := CountryTotal(df1, df2, c);
      CountryStep(df1, df2, countries, i, totals, years);
      if t != 0.0 {
        totals := totals + [Record(c, t)];
        years := years[c := d];
        n := n + 1;
      }
      i := i + 1;
    }
    assert countries[..i] == countries;
  }

  /** What the country loop has built once it has handled the countries
      `done`. */
  ghost predicate CountriesSoFar(df1: CountryRows, df2: CountryRows, done: seq<string>,
                                 totals: seq<Record<string>>, years: map<string, seq<Record<int>>>)
  {
    && KeyList(totals) == KeptCountries(df1, df2, done)
    && (forall x :: x in totals ==> x.value == CountryTotal(df1, df2, x.key) && x.value != 0.0)
    && years.Keys == KeysOf(totals)
    && (forall c :: c in years ==> years[c] == YearDelta(ForCountry(df1, c), ForCountry(df2, c)))
  }

  /** One more country: kept, with its total and yearly deltas, exactly
      when its rounded total is not 0. */
  lemma CountryStep(df1: CountryRows, df2: CountryRows, cs: seq<string>, i: nat,
                    totals: seq<Record<string>>, years: map<string, seq<Record<int>>>)
    requires i < |cs| && CountriesSoFar(df1, df2, cs[..i], totals, years)
    ensures var c, t := cs[i], CountryTotal(df1, df2, cs[i]);
      if t != 0.0 then CountriesSoFar(df1, df2, cs[..i + 1], totals + [Record(c, t)],
                                      years[c := YearDelta(ForCountry(df1, c), ForCountry(df2, c))])
      else CountriesSoFar(df1, df2, cs[..i + 1], totals, years)
  {
    KeptCountriesStep(df1, df2, cs, i);
    var c, t := cs[i], CountryTotal(df1, df2, cs[i]);
    if t != 0.0 {
      var x := Record(c, t);
      var d := YearDelta(ForCountry(df1, c), ForCountry(df2, c));
      var nt, ny := totals + [x], years[c := d];
      KeyListSnoc(totals, x);
      assert KeyList(nt) == KeptCountries(df1, df2, cs[..i + 1]);
      assert forall y :: y in nt ==> y in totals || y == x;
      assert ny.Keys == KeysOf(nt);
      forall k | k in ny ensures ny[k] == YearDelta(ForCountry(df1, k), ForCountry(df2, k)) {
        if k != c {
          assert ny[k] == years[k];
        }
      }
    }
  }


  /** `format_bar_delta_country` up to the figure: the loop over the
      countries of the base frame, then the subplot row count
      `ceil(n / 2)`. */
  method CountriesWithDelta(df1: CountryRows, df2: CountryRows)
    returns (totals: seq<Record<string>>, years: map<string, seq<Record<int>>>, rows: nat)
    ensures KeyList(totals) == KeptCountries(df1, df2, Countries(df1))
    ensures forall x :: x in totals ==> x.value == CountryTotal(df1, df2, x.key) && x.value != 0.0
    ensures forall c :: c in KeysOf(totals) <==>
      (exists r :: r in df1 && r.key.0 == c) && CountryTotal(df1, df2, c) != 0.0
    ensures years.Keys == KeysOf(totals)
    ensures forall c :: c in years ==> years[c] == YearDelta(ForCountry(df1, c), ForCountry(df2, c))
    ensures rows == (|totals| + 1) / 2
    ensures 2 * rows >= |totals| && 2 * rows <= |totals| + 1
  {
    var countries := Countries(df1);
    var n;
    totals, years, n := CountryLoop(df1, df2, countries);
    KeysOfKeyList(totals);
    KeptCountriesMembers(df1, df2, countries);
    rows := (n + 1) / 2;
  }

  // ------------------------------------------------- multi-scenario delta

  /** The base argument: one frame for every scenario, or one per scenario
      key. */
  datatype Baseline =
    | Shared(frame: seq<Record<int>>)
    | PerScenario(frames: map<string, seq<Record<int>>>)

  /** Every scenario has its baseline; otherwise `df1[key]` raises
      KeyError. */
  predicate Covers(b: Baseline, scenarios: map<string, seq<Record<int>>>)
  {
    b.Shared? || scenarios.Keys <= b.frames.Keys
  }

  function BaseFor(b: Baseline, key: string): seq<Record<int>>
    requires b.PerScenario? ==> key in b.frames
  {
    if b.Shared? then b.frame else b.frames[key]
  }

  /** `format_bar_delta_multi_scenario`: the horizon delta of every scenario
      against its baseline, sorted by value ascending when `axisSort`, by
      scenario name otherwise; None where a baseline is missing. */
  method HorizonDeltaOrder(baseline: Baseline, scenarios: map<string, seq<Record<int>>>, axisSort: bool)
    returns (r: Option<seq<Record<string>>>)
    ensures r.None? <==> !Covers(baseline, scenarios)
    ensures r.Some? ==> DistinctKeys(r.value) && KeysOf(r.value) == scenarios.Keys
    ensures r.Some? ==> forall x :: x in r.value ==> (x.key in scenarios &&
      x.value == HorizonDelta(BaseFor(baseline, x.key), scenarios[x.key]))
    ensures r.Some? ==> SortedBy(if axisSort then ByValueAscending else ByKey, r.value)
  {
    var plot: seq<Record<string>> := [];
    var remaining := scenarios.Keys;
    while remaining != {}
      invariant remaining <= scenarios.Keys
      invariant Covers(baseline, scenarios) || (baseline.PerScenario? && exists k :: k in remaining && k !in baseline.frames)
      invariant DistinctKeys(plot) && KeysOf(plot) == scenarios.Keys - remaining
      invariant forall k :: k in KeysOf(plot) ==> baseline.PerScenario? ==> k in baseline.frames
      invariant forall x :: x in plot ==> (x.key in scenarios && (baseline.PerScenario? ==> x.key in baseline.frames) &&
        x.value == HorizonDelta(BaseFor(baseline, x.key), scenarios[x.key]))
      decreases remaining
    {
      var key :| key in remaining;
      if baseline.PerScenario? && key !in baseline.frames {
        return None;
      }
      var v := HorizonDelta(BaseFor(baseline, key), scenarios[key]);
      AddToAppend(plot, Record(key, v));
      plot := plot + [Record(key, v)];
      remaining := remaining - {key};
    }
    var o := if axisSort then ByValueAscending else ByKey;
    var sorted := Sort(o, plot);
    SortDistinct(o, plot);
    PermutationKeys(sorted, plot);
    r := Some(sorted);
  }

  // ------------------------------------------------------ transmission

  /** The transmission technology of a region pair: `f'TRN{key}'`. */
  function TrnCode(key: string): string
  {
    "TRN" + key
  }

  /** VALUE of the first row whose TECHNOLOGY is `TRN{key}`, or 0. */
  function BuiltCapacity(rows: seq<Record<string>>, key: string): (v: real)
    ensures TrnCode(key) !in KeysOf(rows) ==> v == 0.0
    ensures TrnCode(key) in KeysOf(rows) ==> exists i :: (0 <= i < |rows| && rows[i] == Record(TrnCode(key), v) &&
      forall j :: 0 <= j < i ==> rows[j].key != TrnCode(key))
  {
    var i := IndexOf(rows, TrnCode(key));
    if i < 0 then 0.0 else rows[i].value
  }

  /** Row `i` is the first `TRN{key}` row with a non-zero value, `v`. */
  ghost predicate FirstNonZeroAt(rows: seq<Record<string>>, key: string, i: int, v: real)
  {
    && 0 <= i < |rows|
    && rows[i] == Record(TrnCode(key), v)
    && v != 0.0
    && forall j :: 0 <= j < i ==> rows[j].key != TrnCode(key) || rows[j].value == 0.0
  }

  /** VALUE of the first row of `TRN{key}` whose VALUE is not 0; None where
      `.iloc[0]` raises on an empty selection. */
  function MaxCapacity(rows: seq<Record<string>>, key: string): (v: Option<real>)
    ensures v.None? <==> forall x :: x in rows && x.key == TrnCode(key) ==> x.value == 0.0
    ensures v.Some? ==> exists i :: FirstNonZeroAt(rows, key, i, v.value)
  {
    if rows == [] then None
    else if rows[0].key == TrnCode(key) && rows[0].value != 0.0 then
      assert FirstNonZeroAt(rows, key, 0, rows[0].value);
      Some(rows[0].value)
    else
      assert rows == [rows[0]] + rows[1..];
      var m := MaxCapacity(rows[1..], key);
      assert m.Some? ==> exists i :: FirstNonZeroAt(rows, key, i, m.value) by {
        if m.Some? {
          var i :| FirstNonZeroAt(rows[1..], key, i, m.value);
          FirstNonZeroShift(rows, key, i, m.value);
        }
      }
      m
  }

  /** A first non-zero row of the tail is one of the whole sequence when
      its head is not one. */
  lemma FirstNonZeroShift(rows: seq<Record<string>>, key: string, i: int, v: real)
    requires rows != [] && (rows[0].key != TrnCode(key) || rows[0].value == 0.0)
    requires FirstNonZeroAt(rows[1..], key, i, v)
    ensures FirstNonZeroAt(rows, key, i + 1, v)
  {
    assert rows[i + 1] == rows[1..][i];
    forall j | 1 <= j < i + 1 ensures rows[j].key != TrnCode(key) || rows[j].value == 0.0 {
      assert rows[j] == rows[1..][j - 1];
    }
  }


  /** The two bar series of the transmission chart, in drawing order. */
  datatype TransmissionChart = TransmissionChart(maxCapacity: seq<Record<string>>, built: seq<Option<real>>)

  /** `format_transmission_capacity_multi_scenario`: the built capacity of
      every key of the first dictionary, the maximum capacity of every key
      of the second, the maxima sorted descending when `axisSort` or by key,
      and the built values reindexed to that order (None for a key the
      first dictionary lacks, which pandas fills with NaN). */
  method TransmissionCapacity(builtDict: map<string, seq<Record<string>>>,
                              maxDict: map<string, seq<Record<string>>>, axisSort: bool)
    returns (r: Option<TransmissionChart>)
    ensures r.None? <==> exists k :: k in maxDict && MaxCapacity(maxDict[k], k).None?
    ensures r.Some? ==> DistinctKeys(r.value.maxCapacity) && KeysOf(r.value.maxCapacity) == maxDict.Keys
    ensures r.Some? ==> forall x :: x in r.value.maxCapacity ==>
      x.key in maxDict && MaxCapacity(maxDict[x.key], x.key) == Some(x.value)
    ensures r.Some? ==> SortedBy(if axisSort then ByValueDescending else ByKey, r.value.maxCapacity)
    ensures r.Some? ==> |r.value.built| == |r.value.maxCapacity|
    ensures r.Some? ==> forall i :: 0 <= i < |r.value.built| ==>
      var k := r.value.maxCapacity[i].key;
      r.value.built[i] == if k in builtDict then Some(BuiltCapacity(builtDict[k], k)) else None
  {
    var plot1: seq<Record<string>> := [];
    var remaining := builtDict.Keys;
    ghost var done: set<string> := {};
    while remaining != {}
      invariant remaining + done == builtDict.Keys && remaining !! done
      invariant DistinctKeys(plot1) && KeysOf(plot1) == done
      invariant forall x :: x in plot1 ==> x.key in builtDict && x.value == BuiltCapacity(builtDict[x.key], x.key)
      decreases remaining
    {
      var key :| key in remaining;
      var x := Record(key, BuiltCapacity(builtDict[key], key));
      AddToAppend(plot1, x);
      MoveKey(remaining, done, key);
      plot1 := plot1 + [x];
      remaining := remaining - {key};
      done := done + {key};
    }
    var plot2: seq<Record<string>> := [];
    remaining := maxDict.Keys;
    done := {};
    while remaining != {}
      invariant remaining + done == maxDict.Keys && remaining !! done
      invariant forall k :: k in done ==> MaxCapacity(maxDict[k], k).Some?
      invariant DistinctKeys(plot2) && KeysOf(plot2) == done
      invariant forall x :: x in plot2 ==> x.key in maxDict && MaxCapacity(maxDict[x.key], x.key) == Some(x.value)
      decreases remaining
    {
      var key :| key in remaining;
      var m := MaxCapacity(maxDict[key], key);
      if m.None? {
        return None;
      }
      var x := Record(key, m.value);
      AddToAppend(plot2, x);
      MoveKey(remaining, done, key);
      plot2 := plot2 + [x];
      remaining := remaining - {key};
      done := done + {key};
    }
    var o := if axisSort then ByValueDescending else ByKey;
    var order := Sort(o, plot2);
    SortDistinct(o, plot2);
    PermutationKeys(order, plot2);
    var built := Reindex(plot1, builtDict, order);
    r := Some(TransmissionChart(order, built));
  }

  /** `plot_df1.reindex(plot_df2.index)`. */
  method Reindex(plot1: seq<Record<string>>, builtDict: map<string, seq<Record<string>>>, order: seq<Record<string>>)
    returns (built: seq<Option<real>>)
    requires DistinctKeys(plot1) && KeysOf(plot1) == builtDict.Keys
    requires forall x :: x in plot1 ==> x.key in builtDict && x.value == BuiltCapacity(builtDict[x.key], x.key)
    ensures |built| == |order|
    ensures forall i :: 0 <= i < |order| ==>
      built[i] == if order[i].key in builtDict then Some(BuiltCapacity(builtDict[order[i].key], order[i].key)) else None
  {
    built := [];
    var i := 0;
    while i < |order|
      invariant 0 <= i <= |order|
      invariant |built| == i
      invariant forall j :: 0 <= j < i ==>
        built[j] == if order[j].key in builtDict then Some(BuiltCapacity(builtDict[order[j].key], order[j].key)) else None
    {
      var k := order[i].key;
      var j := IndexOf(plot1, k);
      if j < 0 {
        built := built + [None];
      } else {
        assert plot1[j] in plot1;
        built := built + [Some(plot1[j].value)];
      }
      i := i + 1;
    }
  }
}
