/** The table helpers shared by the charts: the model horizon, the unit
    conversions applied in place to a caller's frame, parsing of power
    technology and emission codes with their group-sums, and the base versus
    scenario delta with its zero-delta filter. */
module Utils {
  import opened Wrappers
  import opened Tables
  import opened Strings
  import opened Rounding

  // ---------------------------------------------------------------- horizon

  /** `range(start, end + 1)`: the years start..end inclusive, ascending. */
  function GetYears(start: int, end: int): (r: seq<int>)
    ensures |r| == if end < start then 0 else end - start + 1
    ensures forall i :: 0 <= i < |r| ==> r[i] == start + i
    decreases end - start
  {
    if end < start then [] else [start] + GetYears(start + 1, end)
  }

  /** A year is in the horizon exactly when it lies between the bounds. */
  lemma GetYearsMembers(start: int, end: int)
    ensures forall y :: y in GetYears(start, end) <==> start <= y <= end
  {
    var r := GetYears(start, end);
    forall y | start <= y <= end ensures y in r {
      assert r[y - start] == y;
    }
  }

  // ------------------------------------------------------- unit conversions

  /** A data frame that the helpers change in place, as a sequence of rows. */
  class Frame<R> {
    var rows: seq<R>

    constructor (rows: seq<R>)
      ensures this.rows == rows
    {
      this.rows := rows;
    }
  }

  /** `df['VALUE'] / d` on every row, the other fields kept. */
  function DivideValues<K>(rows: seq<Record<K>>, d: real): (r: seq<Record<K>>)
    requires d != 0.0
    ensures |r| == |rows|
    ensures forall i :: 0 <= i < |r| ==> r[i].key == rows[i].key && r[i].value * d == rows[i].value
  {
    seq(|rows|, i requires 0 <= i < |rows| => Record(rows[i].key, rows[i].value / d))
  }

  function ScaleValues<K>(rows: seq<Record<K>>, f: real): (r: seq<Record<K>>)
    ensures |r| == |rows|
    ensures forall i :: 0 <= i < |r| ==> r[i] == Record(rows[i].key, rows[i].value * f)
  {
    seq(|rows|, i requires 0 <= i < |rows| => Record(rows[i].key, rows[i].value * f))
  }

  /** Multiplying back by the divisor restores the frame. */
  lemma DivideRoundTrip<K>(rows: seq<Record<K>>, d: real)
    requires d != 0.0
    ensures ScaleValues(DivideValues(rows, d), d) == rows
  {
    var r := ScaleValues(DivideValues(rows, d), d);
    assert forall i :: 0 <= i < |r| ==> r[i] == rows[i];
  }

  /** The converted totals are the old totals divided by the same factor. */
  lemma {:induction false} DivideTotal<K(!new)>(rows: seq<Record<K>>, d: real)
    requires d != 0.0
    ensures Total(DivideValues(rows, d)) * d == Total(rows)
  {
    if rows != [] {
      var init := rows[..|rows| - 1];
      DivideTotal(init, d);
      assert DivideValues(rows, d)[..|rows| - 1] == DivideValues(init, d);
    }
  }

  /** `convert_pj_to_twh`: VALUE divided by 3.6 on the caller's frame. */
  method ConvertPjToTwh<K>(df: Frame<Record<K>>) returns (r: Frame<Record<K>>)
    modifies df
    ensures r == df
    ensures df.rows == DivideValues(old(df.rows), 3.6)
  {
    df.rows := DivideValues(df.rows, 3.6);
    r := df;
  }

  /** `convert_million_to_billion`: VALUE divided by 1000 on the caller's frame. */
  method ConvertMillionToBillion<K>(df: Frame<Record<K>>) returns (r: Frame<Record<K>>)
    modifies df
    ensures r == df
    ensures df.rows == DivideValues(old(df.rows), 1000.0)
  {
    df.rows := DivideValues(df.rows, 1000.0);
    r := df;
  }

  // ------------------------------------------------------ technology codes

  /** A row of an activity or capacity result: TECHNOLOGY, YEAR, VALUE. */
  datatype Activity = Activity(technology: string, year: int, value: real)

  /** The (TECH, COUNTRY, YEAR) group key. */
  datatype TechKey = TechKey(tech: string, country: string, year: int)

  /** A power plant (not a transmission link): starts with "PWR" and has no
      "TRN" anywhere. */
  predicate IsPowerTech(t: string)
  {
    StartsWith(t, "PWR") && !Contains(t, "TRN")
  }

  /** The row filter of `format_technology_col`, in row order. */
  function KeepPower(df: seq<Activity>): (r: seq<Activity>)
    ensures forall a :: a in r <==> a in df && IsPowerTech(a.technology)
    ensures |r| <= |df|
  {
    if df == [] then []
    else
      var rest := KeepPower(df[..|df| - 1]);
      assert df == df[..|df| - 1] + [df[|df| - 1]];
      if IsPowerTech(df[|df| - 1].technology) then rest + [df[|df| - 1]] else rest
  }

  /** TECH = TECHNOLOGY[3:6], COUNTRY = TECHNOLOGY[6:9]. */
  function TechKeyOf(a: Activity): TechKey
  {
    TechKey(Slice(a.technology, 3, 6), Slice(a.technology, 6, 9), a.year)
  }

  function Labelled(df: seq<Activity>): (r: seq<Record<TechKey>>)
    ensures |r| == |df|
    ensures forall i :: 0 <= i < |r| ==> r[i] == Record(TechKeyOf(df[i]), df[i].value)
  {
    seq(|df|, i requires 0 <= i < |df| => Record(TechKeyOf(df[i]), df[i].value))
  }

  /** The sum of VALUE over the kept rows with key `k`, read off the input. */
  function KeptSum(df: seq<Activity>, k: TechKey): real
  {
    if df == [] then 0.0
    else
      var a := df[|df| - 1];
      KeptSum(df[..|df| - 1], k) + (if IsPowerTech(a.technology) && TechKeyOf(a) == k then a.value else 0.0)
  }

  /** The sum of VALUE over all kept rows. */
  function KeptTotal(df: seq<Activity>): real
  {
    if df == [] then 0.0
    else
      var a := df[|df| - 1];
      KeptTotal(df[..|df| - 1]) + (if IsPowerTech(a.technology) then a.value else 0.0)
  }

  lemma {:induction false} LabelledKeptSum(df: seq<Activity>, k: TechKey)
    ensures SumWhere(Labelled(KeepPower(df)), k) == KeptSum(df, k)
    ensures Total(Labelled(KeepPower(df))) == KeptTotal(df)
  {
    if df != [] {
      var init := df[..|df| - 1];
      var a := df[|df| - 1];
      LabelledKeptSum(init, k);
      if IsPowerTech(a.technology) {
        assert KeepPower(df) == KeepPower(init) + [a];
        assert Labelled(KeepPower(df)) == Labelled(KeepPower(init)) + [Record(TechKeyOf(a), a.value)];
        SumWhereSnoc(Labelled(KeepPower(init)), [Record(TechKeyOf(a), a.value)], k);
        TotalConcat(Labelled(KeepPower(init)), [Record(TechKeyOf(a), a.value)]);
      }
    }
  }

  /** `format_technology_col`: the power rows, labelled with TECH and
      COUNTRY, summed per (TECH, COUNTRY, YEAR). */
  function FormatTechnologyCol(df: seq<Activity>): seq<Record<TechKey>>
  {
    GroupSum(Labelled(KeepPower(df)))
  }

  /** One row per key of a kept input row; each VALUE is the kept rows' sum
      for its key; the grand total over kept rows is unchanged. */
  lemma FormatTechnologyColSpec(df: seq<Activity>)
    ensures DistinctKeys(FormatTechnologyCol(df))
    ensures forall k :: k in KeysOf(FormatTechnologyCol(df)) <==>
      exists a :: a in df && IsPowerTech(a.technology) && TechKeyOf(a) == k
    ensures forall k :: Get(FormatTechnologyCol(df), k) == KeptSum(df, k)
    ensures Total(FormatTechnologyCol(df)) == KeptTotal(df)
  {
    var l := Labelled(KeepPower(df));
    forall k ensures Get(FormatTechnologyCol(df), k) == KeptSum(df, k) {
      LabelledKeptSum(df, k);
    }
    forall k ensures k in KeysOf(l) <==> exists a :: a in df && IsPowerTech(a.technology) && TechKeyOf(a) == k {
      LabelledKeys(df, k);
    }
    LabelledKeptSum(df, TechKey("", "", 0));
    GroupSumTotal(l);
  }

  /** A key labels some kept row exactly when a power row of `df` has it. */
  lemma LabelledKeys(df: seq<Activity>, k: TechKey)
    ensures k in KeysOf(Labelled(KeepPower(df))) <==>
      exists a :: a in df && IsPowerTech(a.technology) && TechKeyOf(a) == k
  {
    var l := Labelled(KeepPower(df));
    if k in KeysOf(l) {
      var r :| r in l && r.key == k;
      LabelledRowFrom(df, r);
    }
    if exists a :: a in df && IsPowerTech(a.technology) && TechKeyOf(a) == k {
      var a :| a in df && IsPowerTech(a.technology) && TechKeyOf(a) == k;
      LabelledRowOf(df, a);
    }
  }

  lemma LabelledRowFrom(df: seq<Activity>, r: Record<TechKey>)
    requires r in Labelled(KeepPower(df))
    ensures exists a :: a in df && IsPowerTech(a.technology) && TechKeyOf(a) == r.key
  {
    var kept := KeepPower(df);
    var l := Labelled(kept);
    var i :| 0 <= i < |l| && l[i] == r;
    assert kept[i] in kept;
  }

  lemma LabelledRowOf(df: seq<Activity>, a: Activity)
    requires a in df && IsPowerTech(a.technology)
    ensures TechKeyOf(a) in KeysOf(Labelled(KeepPower(df)))
  {
    var kept := KeepPower(df);
    var l := Labelled(kept);
    assert a in kept;
    var i :| 0 <= i < |kept| && kept[i] == a;
    assert l[i] in l;
  }


  /** A kept code of at least nine characters splits as PWR, TECH, COUNTRY. */
  lemma PowerTechFields(a: Activity)
    requires |a.technology| >= 9
    ensures TechKeyOf(a).tech == a.technology[3..6]
    ensures TechKeyOf(a).country == a.technology[6..9]
  {
  }

  // -------------------------------------------------------- emission codes

  /** A row of an emission result; COUNTRY is absent until it is derived. */
  datatype Emission = Emission(emission: string, year: int, value: real, country: Option<string>)

  /** The frame `format_annual_emissions` returns: per-year totals, or the
      rows projected onto (COUNTRY, YEAR, VALUE). */
  datatype AnnualEmissions =
    | ByYear(totals: seq<Record<int>>)
    | ByCountry(rows: seq<Record<(string, int)>>)

  /** `df['COUNTRY'] = df['EMISSION'].str[3:6]` on every row. */
  function WithCountry(rows: seq<Emission>): (r: seq<Emission>)
    ensures |r| == |rows|
    ensures forall i :: 0 <= i < |r| ==>
      r[i] == rows[i].(country := Some(Slice(rows[i].emission, 3, 6)))
  {
    seq(|rows|, i requires 0 <= i < |rows| => rows[i].(country := Some(Slice(rows[i].emission, 3, 6))))
  }

  function YearColumn(rows: seq<Emission>): (r: seq<Record<int>>)
    ensures |r| == |rows|
    ensures forall i :: 0 <= i < |r| ==> r[i] == Record(rows[i].year, rows[i].value)
  {
    seq(|rows|, i requires 0 <= i < |rows| => Record(rows[i].year, rows[i].value))
  }

  /** The emissions of year `y`, read off the input. */
  function EmissionsIn(rows: seq<Emission>, y: int): real
  {
    if rows == [] then 0.0
    else
      EmissionsIn(rows[..|rows| - 1], y) + (if rows[|rows| - 1].year == y then rows[|rows| - 1].value else 0.0)
  }

  function AllEmissions(rows: seq<Emission>): real
  {
    if rows == [] then 0.0 else AllEmissions(rows[..|rows| - 1]) + rows[|rows| - 1].value
  }

  lemma {:induction false} YearColumnSums(rows: seq<Emission>, y: int)
    ensures SumWhere(YearColumn(rows), y) == EmissionsIn(rows, y)
    ensures Total(YearColumn(rows)) == AllEmissions(rows)
  {
    if rows != [] {
      YearColumnSums(rows[..|rows| - 1], y);
      assert YearColumn(rows)[..|rows| - 1] == YearColumn(rows[..|rows| - 1]);
    }
  }

  /** `groupby(['YEAR'])['VALUE'].sum()`. */
  function YearTotals(rows: seq<Emission>): seq<Record<int>>
  {
    GroupSum(YearColumn(rows))
  }

  /** One row per year of the input, holding that year's emissions; nothing
      is lost. */
  lemma YearTotalsSpec(rows: seq<Emission>)
    ensures DistinctKeys(YearTotals(rows))
    ensures forall y :: y in KeysOf(YearTotals(rows)) <==> exists e :: e in rows && e.year == y
    ensures forall y :: Get(YearTotals(rows), y) == EmissionsIn(rows, y)
    ensures Total(YearTotals(rows)) == AllEmissions(rows)
  {
    var c := YearColumn(rows);
    forall y ensures Get(YearTotals(rows), y) == EmissionsIn(rows, y) {
      YearColumnSums(rows, y);
    }
    forall y ensures y in KeysOf(c) <==> exists e :: e in rows && e.year == y {
      if y in KeysOf(c) {
        var r :| r in c && r.key == y;
        var i :| 0 <= i < |c| && c[i] == r;
        assert rows[i] in rows;
      }
      if exists e :: e in rows && e.year == y {
        var e :| e in rows && e.year == y;
        var i :| 0 <= i < |rows| && rows[i] == e;
        assert c[i] in c;
      }
    }
    YearColumnSums(rows, 0);
    GroupSumTotal(c);
  }

  /** `df[['COUNTRY', 'YEAR', 'VALUE']]` after the COUNTRY column is set. */
  function CountryColumns(rows: seq<Emission>): (r: seq<Record<(string, int)>>)
    ensures |r| == |rows|
    ensures forall i :: 0 <= i < |r| ==>
      r[i] == Record((Slice(rows[i].emission, 3, 6), rows[i].year), rows[i].value)
  {
    seq(|rows|, i requires 0 <= i < |rows| => Record((Slice(rows[i].emission, 3, 6), rows[i].year), rows[i].value))
  }

  /** The projection keeps every row and so every emission. */
  lemma {:induction false} CountryColumnsTotal(rows: seq<Emission>)
    ensures Total(CountryColumns(rows)) == AllEmissions(rows)
  {
    if rows != [] {
      CountryColumnsTotal(rows[..|rows| - 1]);
      assert CountryColumns(rows)[..|rows| - 1] == CountryColumns(rows[..|rows| - 1]);
    }
  }

  /** `format_annual_emissions`: COUNTRY is written into the caller's frame,
      then per-year totals or the projected rows are returned. */
  method FormatAnnualEmissions(df: Frame<Emission>, country: bool) returns (r: AnnualEmissions)
    modifies df
    ensures df.rows == WithCountry(old(df.rows))
    ensures !country ==> r == ByYear(YearTotals(df.rows))
    ensures country ==> r == ByCountry(CountryColumns(df.rows))
  {
    df.rows := WithCountry(df.rows);
    if !country {
      r := ByYear(YearTotals(df.rows));
    } else {
      r := ByCountry(CountryColumns(df.rows));
    }
  }

  // ------------------------------------------------------------ deltas

  /** One row of the merged frame: Base, the scenario's value, DELTA. */
  datatype DeltaRow<K> = DeltaRow(key: K, base: real, scenario: real, delta: real)

  ghost predicate DistinctDeltaKeys<K(!new)>(rows: seq<DeltaRow<K>>)
  {
    forall i, j :: 0 <= i < j < |rows| ==> rows[i].key != rows[j].key
  }

  function DeltaKeys<K(==,!new)>(rows: seq<DeltaRow<K>>): set<K>
  {
    set x | x in rows :: x.key
  }

  /** The merged row of key `k`, a side without `k` giving 0 (`fillna(0)`). */
  function MergedRow<K(==,!new)>(base: seq<Record<K>>, scen: seq<Record<K>>, k: K): DeltaRow<K>
  {
    DeltaRow(k, Get(base, k), Get(scen, k), RoundTo(Get(scen, k) - Get(base, k), 2))
  }

  /** `df.loc[df['DELTA'] != 0]`, in row order. */
  function NonZero<K(==,!new)>(rows: seq<DeltaRow<K>>): (r: seq<DeltaRow<K>>)
    ensures forall x :: x in r <==> x in rows && x.delta != 0.0
    ensures DistinctDeltaKeys(rows) ==> DistinctDeltaKeys(r)
  {
    if rows == [] then []
    else
      var rest := NonZero(rows[1..]);
      assert rows == [rows[0]] + rows[1..];
      assert DistinctDeltaKeys(rows) ==> forall x :: x in rest ==> x.key != rows[0].key by {
        if DistinctDeltaKeys(rows) {
          forall x | x in rest ensures x.key != rows[0].key {
            var j :| 0 <= j < |rows| - 1 && rows[1..][j] == x;
            assert rows[j + 1] == x;
          }
        }
      }
      if rows[0].delta != 0.0 then [rows[0]] + rest else rest
  }

  /** The outer join of the two grouped sides on their keys, before the
      zero-delta filter: one row per key of either side. */
  function Merged<K(==,!new)>(df1: seq<Record<K>>, df2: seq<Record<K>>): (all: seq<DeltaRow<K>>)
    ensures DistinctDeltaKeys(all)
    ensures DeltaKeys(all) == KeysOf(df1) + KeysOf(df2)
    ensures forall x :: x in all ==> x == MergedRow(GroupSum(df1), GroupSum(df2), x.key)
  {
    var base := GroupSum(df1);
    var scen := GroupSum(df2);
    var keys := Dedup(KeyList(base) + KeyList(scen));
    var all := seq(|keys|, i requires 0 <= i < |keys| => MergedRow(base, scen, keys[i]));
    KeysOfKeyList(base);
    KeysOfKeyList(scen);
    assert forall k :: k in keys <==> k in KeysOf(df1) + KeysOf(df2);
    assert DeltaKeys(all) == KeysOf(df1) + KeysOf(df2) by {
      forall k | k in KeysOf(df1) + KeysOf(df2) ensures k in DeltaKeys(all) {
        var i :| 0 <= i < |keys| && keys[i] == k;
        assert all[i] in all;
      }
    }
    all
  }

  /** `calculate_results_delta`: both sides summed per key, outer-joined with
      0 for a missing side, DELTA = round(scenario - Base, 2), and the rows
      whose DELTA is 0 dropped. */
  function CalculateResultsDelta<K(==,!new)>(df1: seq<Record<K>>, df2: seq<Record<K>>): seq<DeltaRow<K>>
  {
    NonZero(Merged(df1, df2))
  }

  /** The value a key's rounded delta takes. */
  function RoundedDelta<K(==,!new)>(df1: seq<Record<K>>, df2: seq<Record<K>>, k: K): real
  {
    RoundTo(SumWhere(df2, k) - SumWhere(df1, k), 2)
  }

  /** Every output key comes from one of the inputs; each row holds both
      sides' sums for its key (0 for a side without the key) and their
      rounded difference, which is never 0; and a key of either input is in
      the output exactly when its rounded delta is not 0. */
  lemma CalculateResultsDeltaSpec<K(!new)>(df1: seq<Record<K>>, df2: seq<Record<K>>)
    ensures DistinctDeltaKeys(CalculateResultsDelta(df1, df2))
    ensures DeltaKeys(CalculateResultsDelta(df1, df2)) <= KeysOf(df1) + KeysOf(df2)
    ensures forall x :: x in CalculateResultsDelta(df1, df2) ==>
      && x.base == SumWhere(df1, x.key)
      && x.scenario == SumWhere(df2, x.key)
      && x.delta == RoundTo(x.scenario - x.base, 2)
      && x.delta != 0.0
    ensures forall k :: k in KeysOf(df1) + KeysOf(df2) ==>
      (k in DeltaKeys(CalculateResultsDelta(df1, df2)) <==> RoundedDelta(df1, df2, k) != 0.0)
  {
    forall x | x in CalculateResultsDelta(df1, df2)
      ensures x.base == SumWhere(df1, x.key) && x.scenario == SumWhere(df2, x.key)
      ensures x.delta == RoundTo(x.scenario - x.base, 2) && x.delta != 0.0
    {
      DeltaRowSums(df1, df2, x);
    }
    forall k | k in KeysOf(df1) + KeysOf(df2)
      ensures k in DeltaKeys(CalculateResultsDelta(df1, df2)) <==> RoundedDelta(df1, df2, k) != 0.0
    {
      DeltaKeyKept(df1, df2, k);
    }
  }

  /** The merged row of a key holds the two sides' sums and their rounded
      difference. */
  lemma MergedRowSums<K(!new)>(df1: seq<Record<K>>, df2: seq<Record<K>>, x: DeltaRow<K>)
    requires x == MergedRow(GroupSum(df1), GroupSum(df2), x.key)
    ensures x.base == SumWhere(df1, x.key) && x.scenario == SumWhere(df2, x.key)
    ensures x.delta == RoundTo(x.scenario - x.base, 2)
    ensures x.delta == RoundedDelta(df1, df2, x.key)
  {
    MergedRowDelta(GroupSum(df1), GroupSum(df2), x);
    SidesRoundedDelta(df1, df2, x);
  }

  lemma MergedRowDelta<K(!new)>(base: seq<Record<K>>, scen: seq<Record<K>>, x: DeltaRow<K>)
    requires x == MergedRow(base, scen, x.key)
    ensures x.delta == RoundTo(x.scenario - x.base, 2)
  {
  }

  lemma SidesRoundedDelta<K(!new)>(df1: seq<Record<K>>, df2: seq<Record<K>>, x: DeltaRow<K>)
    requires x.base == SumWhere(df1, x.key) && x.scenario == SumWhere(df2, x.key)
    ensures RoundTo(x.scenario - x.base, 2) == RoundedDelta(df1, df2, x.key)
  {
  }

  lemma DeltaRowSums<K(!new)>(df1: seq<Record<K>>, df2: seq<Record<K>>, x: DeltaRow<K>)
    requires x in CalculateResultsDelta(df1, df2)
    ensures x.base == SumWhere(df1, x.key) && x.scenario == SumWhere(df2, x.key)
    ensures x.delta == RoundTo(x.scenario - x.base, 2) && x.delta != 0.0
  {
    var all := Merged(df1, df2);
    assert x in all && x.delta != 0.0;
    MergedRowSums(df1, df2, x);
  }

  lemma DeltaKeyKept<K(!new)>(df1: seq<Record<K>>, df2: seq<Record<K>>, k: K)
    requires k in KeysOf(df1) + KeysOf(df2)
    ensures k in DeltaKeys(CalculateResultsDelta(df1, df2)) <==> RoundedDelta(df1, df2, k) != 0.0
  {
    var all := Merged(df1, df2);
    var r := NonZero(all);
    var x :| x in all && x.key == k;
    MergedRowSums(df1, df2, x);
    if k in DeltaKeys(r) {
      var y :| y in r && y.key == k;
      assert y in all;
      MergedRowSums(df1, df2, y);
    } else {
      assert x !in r;
    }
  }

  /** A key is dropped exactly when its two sums differ by at most half a
      cent (0.005), ties at the boundary rounding to 0. */
  lemma DeltaDropped<K(!new)>(df1: seq<Record<K>>, df2: seq<Record<K>>, k: K)
    ensures RoundedDelta(df1, df2, k) == 0.0 <==>
      -0.005 <= SumWhere(df2, k) - SumWhere(df1, k) <= 0.005
  {
    RoundToZeroIff(SumWhere(df2, k) - SumWhere(df1, k), 2);
    assert HalfUnit(2) == 0.005;
  }

  /** The DELTA column, keyed as the merged frame. */
  function Deltas<K>(rows: seq<DeltaRow<K>>): (r: seq<Record<K>>)
    ensures |r| == |rows|
    ensures forall i :: 0 <= i < |r| ==> r[i] == Record(rows[i].key, rows[i].delta)
  {
    seq(|rows|, i requires 0 <= i < |rows| => Record(rows[i].key, rows[i].delta))
  }
}
