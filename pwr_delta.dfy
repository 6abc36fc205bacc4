/** The data preparation of the capacity and generation delta charts
    (`format_stacked_bar_pwr_delta` and
    `format_stacked_bar_pwr_delta_multi_scenario`): deltas split by sign,
    summed per (YEAR, TECH) or per TECH, missing years and technologies
    filled with 0, and the scenarios ordered by their gross change. */
module PwrDelta {
  import opened Wrappers
  import opened Tables
  import opened Ordering
  import opened Grids
  import Utils

  // ------------------------------------------------------- per-year split

  /** The body of the year-fill loop for one part: a non-empty grid without
      a row for `y` gets one of zeros. */
  function FillYear(g: Grid, y: int): Grid
  {
    if !IsEmpty(g) && y !in Years(g.rows) then
      Grid(g.columns, g.rows + [GridRow(y, ZeroRow(g.columns))])
    else g
  }

  /** Filling a year keeps what the grid represents, adds only that year,
      and only to a non-empty grid. */
  lemma FillYearSpec(g: Grid, data: seq<Record<(int, string)>>, y: int)
    requires Represents(g, data)
    ensures Represents(FillYear(g, y), data)
    ensures FillYear(g, y).columns == g.columns
    ensures IsEmpty(FillYear(g, y)) <==> IsEmpty(g)
    ensures forall z :: z in Years(FillYear(g, y).rows) <==> z in Years(g.rows) || (!IsEmpty(g) && z == y)
  {
    if !IsEmpty(g) && y !in Years(g.rows) {
      var nr := GridRow(y, ZeroRow(g.columns));
      var rows := g.rows + [nr];
      assert Years(rows) == Years(g.rows) + [y];
      assert forall row :: row in rows <==> row in g.rows || row == nr;
      forall c | c in g.columns ensures nr.cells[c] == SumWhere(data, (y, c)) {
        forall r | r in data ensures r.key != (y, c) {
        }
        SumWhereAbsent(data, (y, c));
      }
    }
  }

  /** One sign part after the year fill and `sort_index()`: it represents the
      part's rows with exactly their labels as columns, its years ascend, it is empty exactly when the part is,
      and a non-empty part has every year of its rows and of the horizon
      start..end. */
  ghost predicate YearPart(part: seq<Record<(int, string)>>, startYear: int, endYear: int, g: Grid)
  {
    && Represents(g, part)
    && LabelColumns(g.columns, part)
    && YearsAscending(g.rows)
    && (IsEmpty(g) <==> part == [])
    && (forall y :: y in Years(g.rows) <==> y in YearsOf(part) || (part != [] && startYear <= y <= endYear))
  }

  /** One sign part once the year-fill loop has reached the year `n`: a
      non-empty part has a row for every year from `startYear` up to `n`
      (excluded) besides the years of its rows. */
  ghost predicate FilledTo(part: seq<Record<(int, string)>>, startYear: int, n: int, g: Grid)
  {
    && Represents(g, part)
    && (IsEmpty(g) <==> part == [])
    && (forall z :: z in Years(g.rows) <==> z in YearsOf(part) || (part != [] && startYear <= z < n))
  }

  /** The columns `cs` are exactly the labels of `part`. */
  ghost predicate LabelColumns(cs: seq<string>, part: seq<Record<(int, string)>>)
  {
    forall c :: c in cs <==> c in LabelsOf(part)
  }

  /** The unstacked part, before any year is filled. */
  lemma PivotFilled(part: seq<Record<(int, string)>>, startYear: int)
    ensures FilledTo(part, startYear, startYear, Pivot(part))
    ensures LabelColumns(Pivot(part).columns, part)
  {
    PivotSpec(part);
  }

  lemma FillYearStep(part: seq<Record<(int, string)>>, startYear: int, n: int, g: Grid)
    requires FilledTo(part, startYear, n, g) && startYear <= n
    ensures FilledTo(part, startYear, n + 1, FillYear(g, n))
    ensures FillYear(g, n).columns == g.columns
  {
    FillYearSpec(g, part, n);
  }

  /** Sorting a part filled over the whole horizon gives its final frame. */
  lemma FilledSorted(part: seq<Record<(int, string)>>, startYear: int, endYear: int, g: Grid)
    requires FilledTo(part, startYear, startYear + |Utils.GetYears(startYear, endYear)|, g)
    requires LabelColumns(g.columns, part)
    ensures YearPart(part, startYear, endYear, Grid(g.columns, SortByYear(g.rows)))
  {
    SortKeepsRepresents(g, part);
    assert |SortByYear(g.rows)| == |multiset(g.rows)|;
  }

  /** The timeseries half of `format_stacked_bar_pwr_delta`: the DELTA rows
      keyed by (YEAR, TECH) split into the negative and the positive part,
      each unstacked, filled over the horizon and sorted by year. */
  method SplitByYear(deltas: seq<Record<(int, string)>>, startYear: int, endYear: int)
    returns (dec: Grid, inc: Grid)
    ensures YearPart(Negatives(deltas), startYear, endYear, dec)
    ensures YearPart(Positives(deltas), startYear, endYear, inc)
  {
    var neg := Negatives(deltas);
    var pos := Positives(deltas);
    PivotFilled(neg, startYear);
    PivotFilled(pos, startYear);
    dec, inc := FillYears(neg, pos, startYear, endYear, Pivot(neg), Pivot(pos));
    FilledSorted(neg, startYear, endYear, dec);
    FilledSorted(pos, startYear, endYear, inc);
    dec := Grid(dec.columns, SortByYear(dec.rows));
    inc := Grid(inc.columns, SortByYear(inc.rows));
  }

  /** The `for idx in years` loop: `df.loc[idx] = 0` on both parts for every
      year of the horizon, leaving their columns alone. */
  method FillYears(neg: seq<Record<(int, string)>>, pos: seq<Record<(int, string)>>,
                   startYear: int, endYear: int, dec0: Grid, inc0: Grid)
    returns (dec: Grid, inc: Grid)
    requires FilledTo(neg, startYear, startYear, dec0)
    requires FilledTo(pos, startYear, startYear, inc0)
    ensures FilledTo(neg, startYear, startYear + |Utils.GetYears(startYear, endYear)|, dec)
    ensures FilledTo(pos, startYear, startYear + |Utils.GetYears(startYear, endYear)|, inc)
    ensures dec.columns == dec0.columns && inc.columns == inc0.columns
  {
    var years := Utils.GetYears(startYear, endYear);
    dec, inc := dec0, inc0;
    var i := 0;
    ghost var n := startYear;
    while i < |years|
      invariant 0 <= i <= |years| && n == startYear + i
      invariant FilledTo(neg, startYear, n, dec) && dec.columns == dec0.columns
      invariant FilledTo(pos, startYear, n, inc) && inc.columns == inc0.columns
    {
      assert years[i] == n;
      FillYearStep(neg, startYear, n, dec);
      FillYearStep(pos, startYear, n, inc);
      dec := FillYear(dec, years[i]);
      inc := FillYear(inc, years[i]);
      i := i + 1;
      n := n + 1;
    }
  }

  /** Each (YEAR, TECH) cell of the decrease part is at most 0, of the
      increase part at least 0, and the two add up to the cell's delta. */
  lemma YearSplitCells(deltas: seq<Record<(int, string)>>, startYear: int, endYear: int,
                       dec: Grid, inc: Grid, y: int, c: string)
    requires YearPart(Negatives(deltas), startYear, endYear, dec)
    requires YearPart(Positives(deltas), startYear, endYear, inc)
    ensures At(dec, y, c) <= 0.0
    ensures At(inc, y, c) >= 0.0
    ensures At(dec, y, c) + At(inc, y, c) == SumWhere(deltas, (y, c))
  {
    AtRepresents(dec, Negatives(deltas), y, c);
    AtRepresents(inc, Positives(deltas), y, c);
    SignSplitSumWhere(deltas, (y, c));
  }

  /** A non-empty part has a row for every year of the horizon, and a year
      without rows of that sign holds 0 in every column. */
  lemma YearPartFilled(part: seq<Record<(int, string)>>, startYear: int, endYear: int, g: Grid)
    requires YearPart(part, startYear, endYear, g)
    ensures !IsEmpty(g) ==> forall y :: y in Utils.GetYears(startYear, endYear) ==> y in Years(g.rows)
    ensures forall y, c :: y !in YearsOf(part) ==> At(g, y, c) == 0.0
  {
    Utils.GetYearsMembers(startYear, endYear);
    forall y, c | y !in YearsOf(part) ensures At(g, y, c) == 0.0 {
      AtRepresents(g, part, y, c);
      forall r | r in part ensures r.key != (y, c) {
      }
      SumWhereAbsent(part, (y, c));
    }
  }

  // ------------------------------------------------------- per-TECH split

  /** One sign part of the horizon split: one row per TECH, each the sum of
      the part's rows of that TECH (0 where it has none), and the TECH set is
      that of the whole table unless the part is empty. */
  ghost predicate TechPart(whole: seq<Record<string>>, part: seq<Record<string>>, s: seq<Record<string>>)
  {
    && DistinctKeys(s)
    && KeysOf(s) == (if part == [] then {} else KeysOf(whole))
    && (forall k :: Get(s, k) == SumWhere(part, k))
  }

  lemma KeysOfEmpty<K(!new)>(rows: seq<Record<K>>)
    ensures KeysOf(rows) == {} <==> rows == []
  {
    if rows != [] {
      assert rows[0].key in KeysOf(rows);
    }
  }

  /** The body of the TECH-fill loop for one part. */
  function FillTech(s: seq<Record<string>>, k: string): seq<Record<string>>
  {
    if s != [] && k !in KeysOf(s) then s + [Record(k, 0.0)] else s
  }

  lemma FillTechSpec(s: seq<Record<string>>, part: seq<Record<string>>, k: string)
    requires DistinctKeys(s)
    requires KeysOf(part) <= KeysOf(s)
    requires forall q :: Get(s, q) == SumWhere(part, q)
    ensures DistinctKeys(FillTech(s, k))
    ensures KeysOf(FillTech(s, k)) == KeysOf(s) + (if s == [] then {} else {k})
    ensures forall q :: Get(FillTech(s, k), q) == SumWhere(part, q)
    ensures Total(FillTech(s, k)) == Total(s)
  {
    if s != [] && k !in KeysOf(s) {
      AddToAppend(s, Record(k, 0.0));
      SumWhereAbsent(part, k);
    }
  }

  /** The group-sum and TECH fill of one sign part: `groupby(['TECH']).sum()`
      then a row of 0 for every TECH of `whole` the part lacks, unless the
      part is empty. */
  method FillPart(whole: seq<Record<string>>, part: seq<Record<string>>) returns (s: seq<Record<string>>)
    requires KeysOf(part) <= KeysOf(whole)
    ensures TechPart(whole, part, s)
    ensures Total(s) == Total(part)
  {
    s := GroupSum(part);
    GroupSumTotal(part);
    KeysOfEmpty(part);
    KeysOfEmpty(s);
    var i := 0;
    while i < |whole|
      invariant 0 <= i <= |whole|
      invariant DistinctKeys(s)
      invariant forall q :: Get(s, q) == SumWhere(part, q)
      invariant Total(s) == Total(part)
      invariant part == [] ==> s == []
      invariant part != [] ==> KeysOf(s) == KeysOf(part) + KeysOf(whole[..i])
    {
      FillTechSpec(s, part, whole[i].key);
      KeysOfSnoc(whole[..i + 1]);
      assert whole[..i + 1][..i] == whole[..i];
      s := FillTech(s, whole[i].key);
      i := i + 1;
    }
    assert whole[..i] == whole;
  }

  /** Both sign parts of a TECH-keyed delta table, unsorted. */
  method SignSplitFill(deltas: seq<Record<string>>) returns (dec: seq<Record<string>>, inc: seq<Record<string>>)
    ensures TechPart(deltas, Negatives(deltas), dec)
    ensures TechPart(deltas, Positives(deltas), inc)
    ensures Total(dec) == Total(Negatives(deltas))
    ensures Total(inc) == Total(Positives(deltas))
  {
    NegativesKeys(deltas);
    dec := FillPart(deltas, Negatives(deltas));
    inc := FillPart(deltas, Positives(deltas));
  }

  /** The horizon half of `format_stacked_bar_pwr_delta`: both parts filled
      and sorted by TECH. */
  method SplitByTech(deltas: seq<Record<string>>) returns (dec: seq<Record<string>>, inc: seq<Record<string>>)
    ensures TechPart(deltas, Negatives(deltas), dec) && KeysAscending(dec)
    ensures TechPart(deltas, Positives(deltas), inc) && KeysAscending(inc)
  {
    var d, i := SignSplitFill(deltas);
    dec := Sort(ByKey, d);
    inc := Sort(ByKey, i);
    SortedTechPart(deltas, Negatives(deltas), d);
    SortedTechPart(deltas, Positives(deltas), i);
  }

  lemma SortedTechPart(whole: seq<Record<string>>, part: seq<Record<string>>, s: seq<Record<string>>)
    requires TechPart(whole, part, s)
    ensures TechPart(whole, part, Sort(ByKey, s))
    ensures KeysAscending(Sort(ByKey, s))
  {
    SortDistinct(ByKey, s);
    PermutationKeys(Sort(ByKey, s), s);
    GetSameRows(Sort(ByKey, s), s);
    SortByKeyAscending(s);
  }

  /** Per TECH, the decrease part is at most 0, the increase part at least
      0, they add up to the TECH's delta, and every TECH of the table is in
      each non-empty part. */
  lemma TechSplitCells(deltas: seq<Record<string>>, dec: seq<Record<string>>, inc: seq<Record<string>>, k: string)
    requires TechPart(deltas, Negatives(deltas), dec)
    requires TechPart(deltas, Positives(deltas), inc)
    ensures Get(dec, k) <= 0.0 && Get(inc, k) >= 0.0
    ensures Get(dec, k) + Get(inc, k) == SumWhere(deltas, k)
    ensures k in KeysOf(deltas) && dec != [] ==> k in KeysOf(dec)
    ensures k in KeysOf(deltas) && inc != [] ==> k in KeysOf(inc)
  {
    SignSplitSumWhere(deltas, k);
    KeysOfEmpty(dec);
    KeysOfEmpty(inc);
  }

  // ------------------------------------------------ multi-scenario order

  /** `-capacity1.sum() + capacity2.sum()` of one scenario. */
  function GrossChange(deltas: seq<Record<string>>): real
  {
    -Total(Negatives(deltas)) + Total(Positives(deltas))
  }

  function Abs(x: real): real
  {
    if x < 0.0 then -x else x
  }

  /** The sum of the magnitudes of the deltas. */
  function AbsTotal(deltas: seq<Record<string>>): real
  {
    if deltas == [] then 0.0 else AbsTotal(deltas[..|deltas| - 1]) + Abs(deltas[|deltas| - 1].value)
  }

  /** The gross change is the total magnitude of the deltas, so never
      negative. */
  lemma {:induction false} GrossChangeAbs(deltas: seq<Record<string>>)
    ensures GrossChange(deltas) == AbsTotal(deltas)
    ensures GrossChange(deltas) >= 0.0
  {
    if deltas != [] {
      var init := deltas[..|deltas| - 1];
      var x := deltas[|deltas| - 1];
      GrossChangeAbs(init);
      SignSnoc(deltas);
      assert AbsTotal(deltas) == AbsTotal(init) + Abs(x.value);
      var n, p := Negatives(init), Positives(init);
      SumWhereSingle(x, x.key);
      if x.value < 0.0 {
        assert Negatives(deltas) == n + [x] && Positives(deltas) == p;
        TotalConcat(n, [x]);
        assert Total(Negatives(deltas)) == Total(n) + x.value;
        assert Total(Positives(deltas)) == Total(p);
        assert GrossChange(deltas) == GrossChange(init) - x.value;
      } else if x.value > 0.0 {
        assert Negatives(deltas) == n && Positives(deltas) == p + [x];
        TotalConcat(p, [x]);
        assert Total(Positives(deltas)) == Total(p) + x.value;
        assert Total(Negatives(deltas)) == Total(n);
        assert GrossChange(deltas) == GrossChange(init) + x.value;
      } else {
        assert Negatives(deltas) == n && Positives(deltas) == p;
        assert GrossChange(deltas) == GrossChange(init);
      }
    }
  }

  /** The frames the multi-scenario chart draws: the scenarios in drawing
      order with their gross change, and each scenario's two parts. */
  datatype GrossChart = GrossChart(
    order: seq<Record<string>>,
    decrease: map<string, seq<Record<string>>>,
    increase: map<string, seq<Record<string>>>)

  ghost predicate GrossChartOf(dfDict: map<string, seq<Record<string>>>, axisSort: bool, c: GrossChart)
  {
    && DistinctKeys(c.order)
    && KeysOf(c.order) == dfDict.Keys
    && (forall x :: x in c.order ==> x.value == GrossChange(dfDict[x.key]))
    && SortedBy(if axisSort then ByValueDescending else ByKey, c.order)
    && c.decrease.Keys == dfDict.Keys
    && c.increase.Keys == dfDict.Keys
    && (forall k :: k in dfDict ==> TechPart(dfDict[k], Negatives(dfDict[k]), c.decrease[k]))
    && (forall k :: k in dfDict ==> TechPart(dfDict[k], Positives(dfDict[k]), c.increase[k]))
  }

  /** The gross changes the scenario loop has computed for the scenarios in
      `done`, one per scenario. */
  ghost predicate SumsSoFar(dfDict: map<string, seq<Record<string>>>, done: set<string>, sums: seq<Record<string>>)
  {
    && DistinctKeys(sums)
    && KeysOf(sums) == done
    && (forall x :: x in sums ==> x.key in dfDict && x.value == GrossChange(dfDict[x.key]))
  }

  /** The parts of one sign (the negative one when `negative`) the scenario
      loop has filled for the scenarios in `done`. */
  ghost predicate PartsSoFar(dfDict: map<string, seq<Record<string>>>, done: set<string>,
                             parts: map<string, seq<Record<string>>>, negative: bool)
  {
    && parts.Keys == done
    && (forall k :: k in parts ==>
          (k in dfDict && TechPart(dfDict[k], if negative then Negatives(dfDict[k]) else Positives(dfDict[k]), parts[k])))
  }

  lemma SumsStep(dfDict: map<string, seq<Record<string>>>, done: set<string>, sums: seq<Record<string>>, key: string)
    requires SumsSoFar(dfDict, done, sums)
    requires key in dfDict && key !in done
    ensures SumsSoFar(dfDict, done + {key}, sums + [Record(key, GrossChange(dfDict[key]))])
  {
    var r := Record(key, GrossChange(dfDict[key]));
    AddToAppend(sums, r);
    assert forall x :: x in sums + [r] ==> x in sums || x == r;
  }

  lemma PartsStep(dfDict: map<string, seq<Record<string>>>, done: set<string>,
                  parts: map<string, seq<Record<string>>>, negative: bool,
                  key: string, part: seq<Record<string>>)
    requires PartsSoFar(dfDict, done, parts, negative)
    requires key in dfDict
    requires TechPart(dfDict[key], if negative then Negatives(dfDict[key]) else Positives(dfDict[key]), part)
    ensures PartsSoFar(dfDict, done + {key}, parts[key := part], negative)
  {
  }

  /** `format_stacked_bar_pwr_delta_multi_scenario`: both parts per scenario,
      the gross change per scenario, and the scenarios sorted by it
      (descending) when `axisSort`, by name otherwise. An empty dictionary
      leaves `plot_df1` as None and the chart fails: None. */
  method GrossChangeOrder(dfDict: map<string, seq<Record<string>>>, axisSort: bool) returns (r: Option<GrossChart>)
    ensures r.None? <==> dfDict == map[]
    ensures r.Some? ==> GrossChartOf(dfDict, axisSort, r.value)
  {
    if dfDict == map[] {
      return None;
    }
    var sums: seq<Record<string>> := [];
    var decrease: map<string, seq<Record<string>>> := map[];
    var increase: map<string, seq<Record<string>>> := map[];
    var remaining := dfDict.Keys;
    ghost var done: set<string> := {};
    while remaining != {}
      invariant remaining + done == dfDict.Keys && remaining !! done
      invariant SumsSoFar(dfDict, done, sums)
      invariant PartsSoFar(dfDict, done, decrease, true)
      invariant PartsSoFar(dfDict, done, increase, false)
      decreases remaining
    {
      var key :| key in remaining;
      var dec, inc := SignSplitFill(dfDict[key]);
      var g := -Total(dec) + Total(inc);
      assert g == GrossChange(dfDict[key]);
      SumsStep(dfDict, done, sums, key);
      PartsStep(dfDict, done, decrease, true, key, dec);
      PartsStep(dfDict, done, increase, false, key, inc);
      MoveKey(remaining, done, key);
      sums := sums + [Record(key, g)];
      decrease := decrease[key := dec];
      increase := increase[key := inc];
      done := done + {key};
      remaining := remaining - {key};
    }
    var o := if axisSort then ByValueDescending else ByKey;
    var order := Sort(o, sums);
    SortDistinct(o, sums);
    PermutationKeys(order, sums);
    r := Some(GrossChart(order, decrease, increase));
  }

  /** Ordered by name, the scenario names strictly ascend. */
  lemma GrossOrderByKey(dfDict: map<string, seq<Record<string>>>, c: GrossChart)
    requires GrossChartOf(dfDict, false, c)
    ensures KeysAscending(c.order)
  {
    var s := c.order;
    forall i, j | 0 <= i < j < |s| ensures Strings.StrLt(s[i].key, s[j].key) {
      Strings.StrLtTotal(s[i].key, s[j].key);
    }
  }
}
