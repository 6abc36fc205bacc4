/** The generation-share charts (`format_stacked_bar_gen_shares` and
    `format_stacked_bar_gen_shares_delta`): the "Other" share derived as
    100 - Renewable - Fossil, the per-year sums, the scenario-minus-base
    deltas over the timeseries and over the horizon metrics, and the split of
    each delta into its negative and positive part with `clip`. */
module GenShares {
  import opened Wrappers
  import opened Tables

  /** A row of the per-country share result: COUNTRY, YEAR, RENEWABLE and
      FOSSIL, in percent. */
  datatype ShareRow = ShareRow(country: string, year: int, renewable: real, fossil: real)

  /** The three stacked columns: Renewable, Fossil, Other. */
  datatype Shares = Shares(renewable: real, fossil: real, other: real)

  function SumOf(s: Shares): real
  {
    s.renewable + s.fossil + s.other
  }

  function Plus(a: Shares, b: Shares): Shares
  {
    Shares(a.renewable + b.renewable, a.fossil + b.fossil, a.other + b.other)
  }

  /** `b - a`, column by column. */
  function Minus(b: Shares, a: Shares): Shares
  {
    Shares(b.renewable - a.renewable, b.fossil - a.fossil, b.other - a.other)
  }

  /** One row's shares with `Other = 100 - Renewable - Fossil`: the row's own
      two shares, and the three summing to 100. */
  function WithOther(r: ShareRow): (s: Shares)
    ensures s.renewable == r.renewable && s.fossil == r.fossil
    ensures SumOf(s) == 100.0
  {
    Shares(r.renewable, r.fossil, 100.0 - r.renewable - r.fossil)
  }

  // --------------------------------------------------------- country filter

  /** Python truthiness of the `country` argument: None and "" are false. */
  predicate Truthy(country: Option<string>)
  {
    country.Some? && country.value != ""
  }

  /** `df.loc[df['COUNTRY'] == country]` when `country` is truthy, the whole
      frame otherwise. */
  function ForCountry(rows: seq<ShareRow>, country: Option<string>): (r: seq<ShareRow>)
    ensures forall x :: x in r <==> x in rows && (Truthy(country) ==> x.country == country.value)
    ensures !Truthy(country) ==> r == rows
    ensures Truthy(country) ==> forall x ::
      multiset(r)[x] == (if x.country == country.value then multiset(rows)[x] else 0)
  {
    if !Truthy(country) then rows
    else if rows == [] then []
    else
      var rest := ForCountry(rows[..|rows| - 1], country);
      assert rows == rows[..|rows| - 1] + [rows[|rows| - 1]];
      if rows[|rows| - 1].country == country.value then rest + [rows[|rows| - 1]] else rest
  }

  // -------------------------------------------------------- per-year sums

  /** The number of rows of year `y`. */
  function RowsIn(rows: seq<ShareRow>, y: int): nat
  {
    if rows == [] then 0
    else RowsIn(rows[..|rows| - 1], y) + (if rows[|rows| - 1].year == y then 1 else 0)
  }

  /** The three columns summed over the rows of year `y`. */
  function SharesIn(rows: seq<ShareRow>, y: int): Shares
  {
    if rows == [] then Shares(0.0, 0.0, 0.0)
    else
      var last := rows[|rows| - 1];
      var s := SharesIn(rows[..|rows| - 1], y);
      if last.year == y then Plus(s, WithOther(last)) else s
  }

  /** Summed over a year, the three columns make 100 per row of that year. */
  lemma {:induction false} SharesInSum(rows: seq<ShareRow>, y: int)
    ensures SumOf(SharesIn(rows, y)) == 100.0 * RowsIn(rows, y) as real
  {
    if rows == [] {
      assert SharesIn(rows, y) == Shares(0.0, 0.0, 0.0);
      assert RowsIn(rows, y) == 0;
    } else {
      var init := rows[..|rows| - 1];
      SharesInSum(init, y);
      var s := SharesIn(init, y);
      var n := RowsIn(init, y) as real;
      if rows[|rows| - 1].year == y {
        var w := WithOther(rows[|rows| - 1]);
        assert SharesIn(rows, y) == Plus(s, w);
        assert RowsIn(rows, y) as real == n + 1.0;
        assert SumOf(Plus(s, w)) == SumOf(s) + SumOf(w);
      } else {
        assert SharesIn(rows, y) == s;
        assert RowsIn(rows, y) as real == n;
      }
    }
  }

  /** One row of `[['YEAR', 'Renewable', 'Fossil', 'Other']].groupby(['YEAR']).sum()`. */
  datatype YearShares = YearShares(year: int, shares: Shares)

  function YearIndex(ts: seq<YearShares>): set<int>
  {
    set x | x in ts :: x.year
  }

  ghost predicate DistinctYears(ts: seq<YearShares>)
  {
    forall i, j :: 0 <= i < j < |ts| ==> ts[i].year != ts[j].year
  }

  function YearList(rows: seq<ShareRow>): (ys: seq<int>)
    ensures forall y :: y in ys <==> exists r :: r in rows && r.year == y
  {
    var ys := seq(|rows|, i requires 0 <= i < |rows| => rows[i].year);
    assert forall y :: (exists r :: r in rows && r.year == y) ==> y in ys by {
      forall y | exists r :: r in rows && r.year == y ensures y in ys {
        var r :| r in rows && r.year == y;
        var i :| 0 <= i < |rows| && rows[i] == r;
        assert ys[i] == y;
      }
    }
    ys
  }

  /** The per-year sums: one entry per year of the rows, holding that
      year's column sums. */
  function ByYear(rows: seq<ShareRow>): (ts: seq<YearShares>)
    ensures DistinctYears(ts)
    ensures forall y :: y in YearIndex(ts) <==> exists r :: r in rows && r.year == y
    ensures forall x :: x in ts ==> x.shares == SharesIn(rows, x.year)
  {
    var years := Dedup(YearList(rows));
    var ts := seq(|years|, i requires 0 <= i < |years| => YearShares(years[i], SharesIn(rows, years[i])));
    assert forall y :: y in years ==> y in YearIndex(ts) by {
      forall y | y in years ensures y in YearIndex(ts) {
        var i :| 0 <= i < |years| && years[i] == y;
        assert ts[i] in ts;
      }
    }
    assert forall y :: y in YearIndex(ts) ==> y in years by {
      forall y | y in YearIndex(ts) ensures y in years {
        var x :| x in ts && x.year == y;
        var i :| 0 <= i < |ts| && ts[i] == x;
      }
    }
    ts
  }

  /** The data of `format_stacked_bar_gen_shares`. */
  function GenShares(rows: seq<ShareRow>, country: Option<string>): seq<YearShares>
  {
    ByYear(ForCountry(rows, country))
  }

  /** Each year of the chart holds the sums of the selected rows of that
      year, and its three columns make 100 per such row. */
  lemma GenSharesSpec(rows: seq<ShareRow>, country: Option<string>)
    ensures forall x :: x in GenShares(rows, country) ==>
      && x.shares == SharesIn(ForCountry(rows, country), x.year)
      && SumOf(x.shares) == 100.0 * RowsIn(ForCountry(rows, country), x.year) as real
    ensures forall y :: y in YearIndex(GenShares(rows, country)) <==>
      exists r :: r in rows && r.year == y && (Truthy(country) ==> r.country == country.value)
  {
    forall x | x in GenShares(rows, country)
      ensures SumOf(x.shares) == 100.0 * RowsIn(ForCountry(rows, country), x.year) as real
    {
      SharesInSum(ForCountry(rows, country), x.year);
    }
  }

  // ------------------------------------------------------ timeseries delta

  /** The entry of year `y`, or None. */
  function SharesAt(ts: seq<YearShares>, y: int): (r: Option<Shares>)
    ensures r.None? <==> y !in YearIndex(ts)
    ensures r.Some? ==> YearShares(y, r.value) in ts
  {
    if ts == [] then None
    else if ts[0].year == y then Some(ts[0].shares)
    else
      assert ts == [ts[0]] + ts[1..];
      SharesAt(ts[1..], y)
  }

  /** `df_in2 - df_in1` on the YEAR index, kept where both have the year (a
      year on one side only gives NaN, which draws nothing). */
  function TimeseriesDelta(base: seq<YearShares>, scen: seq<YearShares>): (d: seq<YearShares>)
    ensures DistinctYears(base) ==> DistinctYears(d)
    ensures forall x :: x in d ==> x.year in YearIndex(base) && x.year in YearIndex(scen)
    ensures forall y :: y in YearIndex(base) && y in YearIndex(scen) ==> y in YearIndex(d)
    ensures forall x :: x in d ==> (SharesAt(base, x.year).Some? && SharesAt(scen, x.year).Some? &&
      x.shares == Minus(SharesAt(scen, x.year).value, SharesAt(base, x.year).value))
  {
    var ys := seq(|base|, i requires 0 <= i < |base| => base[i].year);
    assert forall y :: y in YearIndex(base) ==> y in ys by {
      forall y | y in YearIndex(base) ensures y in ys {
        var x :| x in base && x.year == y;
        var i :| 0 <= i < |base| && base[i] == x;
        assert ys[i] == y;
      }
    }
    assert DistinctYears(base) ==> DistinctYears(CommonYears(ys, base, scen)) by {
      if DistinctYears(base) {
        CommonYearsDistinct(ys, base, scen);
      }
    }
    CommonYears(ys, base, scen)
  }

  /** The entries of `TimeseriesDelta` for the years `ys` of the base. */
  function CommonYears(ys: seq<int>, base: seq<YearShares>, scen: seq<YearShares>): (d: seq<YearShares>)
    requires forall y :: y in ys ==> y in YearIndex(base)
    ensures forall x :: x in d ==> x.year in ys && x.year in YearIndex(scen)
    ensures forall y :: y in ys && y in YearIndex(scen) ==> y in YearIndex(d)
    ensures forall x :: x in d ==> (SharesAt(base, x.year).Some? && SharesAt(scen, x.year).Some? &&
      x.shares == Minus(SharesAt(scen, x.year).value, SharesAt(base, x.year).value))
  {
    if ys == [] then []
    else
      var rest := CommonYears(ys[1..], base, scen);
      assert ys == [ys[0]] + ys[1..];
      var b := SharesAt(base, ys[0]);
      var s := SharesAt(scen, ys[0]);
      if s.Some? then [YearShares(ys[0], Minus(s.value, b.value))] + rest else rest
  }

  /** Distinct base years give one delta row per year. */
  lemma {:induction false} CommonYearsDistinct(ys: seq<int>, base: seq<YearShares>, scen: seq<YearShares>)
    requires forall y :: y in ys ==> y in YearIndex(base)
    requires Distinct(ys)
    ensures DistinctYears(CommonYears(ys, base, scen))
  {
    if ys != [] {
      assert ys == [ys[0]] + ys[1..];
      assert Distinct(ys[1..]) && ys[0] !in ys[1..];
      CommonYearsDistinct(ys[1..], base, scen);
    }
  }

  /** For the per-year sums of two row sets, each year's three deltas add up
      to 100 times the change in that year's row count (0 when both have one
      row per year). */
  lemma TimeseriesDeltaSum(rows1: seq<ShareRow>, rows2: seq<ShareRow>, x: YearShares)
    requires x in TimeseriesDelta(ByYear(rows1), ByYear(rows2))
    ensures SumOf(x.shares) == 100.0 * (RowsIn(rows2, x.year) as real - RowsIn(rows1, x.year) as real)
  {
    var a := SharesAt(ByYear(rows1), x.year).value;
    var b := SharesAt(ByYear(rows2), x.year).value;
    assert YearShares(x.year, a) in ByYear(rows1);
    assert YearShares(x.year, b) in ByYear(rows2);
    SharesInSum(rows1, x.year);
    SharesInSum(rows2, x.year);
  }

  // ------------------------------------------------------------ clipping

  /** `(x.clip(upper = 0), x.clip(lower = 0))`: a non-positive and a
      non-negative part, one of them 0, adding up to `x`. */
  function Clip(x: real): (r: (real, real))
    ensures r.0 <= 0.0 <= r.1
    ensures r.0 + r.1 == x
    ensures r.0 == 0.0 || r.1 == 0.0
  {
    (if x < 0.0 then x else 0.0, if x > 0.0 then x else 0.0)
  }

  predicate NonPositive(s: Shares)
  {
    s.renewable <= 0.0 && s.fossil <= 0.0 && s.other <= 0.0
  }

  predicate NonNegative(s: Shares)
  {
    s.renewable >= 0.0 && s.fossil >= 0.0 && s.other >= 0.0
  }

  /** In every column at least one of the two parts is 0. */
  predicate Disjoint(neg: Shares, pos: Shares)
  {
    && (neg.renewable == 0.0 || pos.renewable == 0.0)
    && (neg.fossil == 0.0 || pos.fossil == 0.0)
    && (neg.other == 0.0 || pos.other == 0.0)
  }

  /** Both parts of a frame's `clip`, column by column. */
  function ClipShares(s: Shares): (r: (Shares, Shares))
    ensures NonPositive(r.0) && NonNegative(r.1)
    ensures Disjoint(r.0, r.1)
    ensures Plus(r.0, r.1) == s
  {
    var (rn, rp) := Clip(s.renewable);
    var (fn, fp) := Clip(s.fossil);
    var (on, op) := Clip(s.other);
    (Shares(rn, fn, on), Shares(rp, fp, op))
  }

  /** The clauses of `ClipShares` determine its value: any two parts with
      those signs, one of them 0 per column, adding up to `s`, are the
      two parts of `clip`. */
  lemma ClipSharesUnique(s: Shares, neg: Shares, pos: Shares)
    requires NonPositive(neg) && NonNegative(pos) && Disjoint(neg, pos)
    requires Plus(neg, pos) == s
    ensures (neg, pos) == ClipShares(s)
  {
  }

  /** `df_ts_in.clip(upper = 0)` and `df_ts_in.clip(lower = 0)`. */
  function ClipTimeseries(ts: seq<YearShares>): (r: (seq<YearShares>, seq<YearShares>))
    ensures |r.0| == |ts| && |r.1| == |ts|
    ensures forall i :: 0 <= i < |ts| ==>
      && r.0[i].year == ts[i].year && r.1[i].year == ts[i].year
      && NonPositive(r.0[i].shares) && NonNegative(r.1[i].shares)
      && Disjoint(r.0[i].shares, r.1[i].shares)
      && Plus(r.0[i].shares, r.1[i].shares) == ts[i].shares
  {
    (seq(|ts|, i requires 0 <= i < |ts| => YearShares(ts[i].year, ClipShares(ts[i].shares).0)),
     seq(|ts|, i requires 0 <= i < |ts| => YearShares(ts[i].year, ClipShares(ts[i].shares).1)))
  }

  // ---------------------------------------------------------- horizon

  /** The metric names the headline table uses for the two shares. */
  const RenewableMetric := "Renewable energy share"
  const FossilMetric := "Fossil energy share"

  /** `df['Metric'].replace({...})`: the two share metrics renamed to the
      column names, every other metric kept. */
  function Relabel(m: seq<Record<string>>): (r: seq<Record<string>>)
    ensures |r| == |m|
    ensures forall i :: 0 <= i < |m| ==> (r[i].value == m[i].value &&
      r[i].key == (if m[i].key == RenewableMetric then "Renewable"
                   else if m[i].key == FossilMetric then "Fossil"
                   else m[i].key))
  {
    seq(|m|, i requires 0 <= i < |m| =>
      Record(if m[i].key == RenewableMetric then "Renewable"
             else if m[i].key == FossilMetric then "Fossil"
             else m[i].key, m[i].value))
  }

  /** `df.loc[df.index == k].iloc[0]`: the first row of metric `k`; None
      where `.iloc[0]` raises on an empty selection. */
  function First(m: seq<Record<string>>, k: string): (r: Option<real>)
    ensures r.None? <==> k !in KeysOf(m)
    ensures r.Some? ==> exists i :: (0 <= i < |m| && m[i] == Record(k, r.value) &&
      forall j :: 0 <= j < i ==> m[j].key != k)
  {
    var i := IndexOf(m, k);
    if i < 0 then None else Some(m[i].value)
  }

  /** The three horizon shares of one run's metrics after relabelling, with
      `Other` = 100 - first Renewable - first Fossil. */
  function HorizonShares(m: seq<Record<string>>): (r: Option<Shares>)
    ensures r.None? <==> "Renewable" !in KeysOf(Relabel(m)) || "Fossil" !in KeysOf(Relabel(m))
    ensures r.Some? ==> SumOf(r.value) == 100.0
    ensures r.Some? ==> r.value.renewable == First(Relabel(m), "Renewable").value
    ensures r.Some? ==> r.value.fossil == First(Relabel(m), "Fossil").value
  {
    var l := Relabel(m);
    var re := First(l, "Renewable");
    var fo := First(l, "Fossil");
    if re.None? || fo.None? then None
    else Some(Shares(re.value, fo.value, 100.0 - re.value - fo.value))
  }

  /** `df_in4 - df_in3` on the three horizon columns. */
  function HorizonDelta(m3: seq<Record<string>>, m4: seq<Record<string>>): Option<Shares>
  {
    var a := HorizonShares(m3);
    var b := HorizonShares(m4);
    if a.None? || b.None? then None else Some(Minus(b.value, a.value))
  }

  /** The horizon deltas of the three shares add up to 0, and are missing
      exactly when one run lacks a share metric. */
  lemma HorizonDeltaSum(m3: seq<Record<string>>, m4: seq<Record<string>>)
    ensures HorizonDelta(m3, m4).None? <==> HorizonShares(m3).None? || HorizonShares(m4).None?
    ensures HorizonDelta(m3, m4).Some? ==> SumOf(HorizonDelta(m3, m4).value) == 0.0
  {
  }

  /** The data of `format_stacked_bar_gen_shares_delta`: the timeseries
      delta with its two clipped parts, and the horizon delta with its two
      parts. */
  datatype SharesDeltaChart = SharesDeltaChart(
    timeseries: seq<YearShares>,
    tsDecrease: seq<YearShares>,
    tsIncrease: seq<YearShares>,
    horizon: Shares,
    hzDecrease: Shares,
    hzIncrease: Shares)

  function GenSharesDelta(rows1: seq<ShareRow>, rows2: seq<ShareRow>,
                          m3: seq<Record<string>>, m4: seq<Record<string>>): (r: Option<SharesDeltaChart>)
    ensures r.None? <==> HorizonDelta(m3, m4).None?
    ensures r.Some? ==>
      && r.value.timeseries == TimeseriesDelta(ByYear(rows1), ByYear(rows2))
      && r.value.horizon == HorizonDelta(m3, m4).value
      && SumOf(r.value.horizon) == 0.0
      && NonPositive(r.value.hzDecrease) && NonNegative(r.value.hzIncrease)
      && Disjoint(r.value.hzDecrease, r.value.hzIncrease)
      && Plus(r.value.hzDecrease, r.value.hzIncrease) == r.value.horizon
      && |r.value.tsDecrease| == |r.value.timeseries| == |r.value.tsIncrease|
      && (forall i :: 0 <= i < |r.value.timeseries| ==>
            && r.value.tsDecrease[i].year == r.value.timeseries[i].year
            && r.value.tsIncrease[i].year == r.value.timeseries[i].year
            && NonPositive(r.value.tsDecrease[i].shares)
            && NonNegative(r.value.tsIncrease[i].shares)
            && Disjoint(r.value.tsDecrease[i].shares, r.value.tsIncrease[i].shares)
            && Plus(r.value.tsDecrease[i].shares, r.value.tsIncrease[i].shares) == r.value.timeseries[i].shares)
  {
    var ts := TimeseriesDelta(ByYear(rows1), ByYear(rows2));
    var hz := HorizonDelta(m3, m4);
    HorizonDeltaSum(m3, m4);
    if hz.None? then None
    else
      var (tn, tp) := ClipTimeseries(ts);
      var (hn, hp) := ClipShares(hz.value);
      Some(SharesDeltaChart(ts, tn, tp, hz.value, hn, hp))
  }
}
