/** The data preparation of `format_line_emission_limit`: "CO2" is removed
    from the EMISSION labels of the caller's frame, the frame is unstacked
    by YEAR and EMISSION, and its columns are split into those that never
    exceed 100 and the rest. */
module EmissionLimit {
  import opened Tables
  import opened Strings
  import opened Grids
  import opened Utils

  /** `df['EMISSION'].str.replace('CO2', '')` on rows keyed by (YEAR, EMISSION). */
  function StripLabels(rows: seq<Record<(int, string)>>): (r: seq<Record<(int, string)>>)
    ensures |r| == |rows|
    ensures forall i :: 0 <= i < |rows| ==>
      r[i] == Record((rows[i].key.0, StripCo2(rows[i].key.1)), rows[i].value)
  {
    seq(|rows|, i requires 0 <= i < |rows| => Record((rows[i].key.0, StripCo2(rows[i].key.1)), rows[i].value))
  }

  /** `df[c].le(100).all()`. */
  predicate AtMostLimit(g: Grid, c: string)
  {
    forall row :: row in g.rows && c in row.cells ==> row.cells[c] <= 100.0
  }

  /** `df.loc[:, df.le(100).all()]` and `df.drop(columns = ...)`: the columns
      in order, split by whether every value is at most 100. */
  function SplitColumns(g: Grid, cs: seq<string>): (p: (seq<string>, seq<string>))
    ensures forall c :: c in p.0 <==> c in cs && AtMostLimit(g, c)
    ensures forall c :: c in p.1 <==> c in cs && !AtMostLimit(g, c)
    ensures |p.0| + |p.1| == |cs|
    ensures Distinct(cs) ==> Distinct(p.0) && Distinct(p.1)
  {
    if cs == [] then ([], [])
    else
      var rest := SplitColumns(g, cs[1..]);
      assert cs == [cs[0]] + cs[1..];
      if AtMostLimit(g, cs[0]) then ([cs[0]] + rest.0, rest.1) else (rest.0, [cs[0]] + rest.1)
  }

  /** The frame restricted to the columns `cs`. */
  function Restrict(g: Grid, cs: seq<string>): (h: Grid)
    ensures h.columns == cs && |h.rows| == |g.rows| && Years(h.rows) == Years(g.rows)
    ensures forall i, c :: 0 <= i < |h.rows| ==> (c in h.rows[i].cells <==> c in cs && c in g.rows[i].cells)
    ensures forall i, c :: 0 <= i < |h.rows| && c in cs && c in g.rows[i].cells ==>
      c in h.rows[i].cells && h.rows[i].cells[c] == g.rows[i].cells[c]
  {
    Grid(cs, seq(|g.rows|, i requires 0 <= i < |g.rows| =>
      GridRow(g.rows[i].year, map c | c in cs && c in g.rows[i].cells :: g.rows[i].cells[c])))
  }

  /** `format_line_emission_limit` up to the figure: the labels are stripped
      in the caller's frame, then the two line-chart frames are built. */
  method FormatLineEmissionLimit(df: Frame<Record<(int, string)>>) returns (low: Grid, high: Grid)
    modifies df
    ensures df.rows == StripLabels(old(df.rows))
    ensures low == Restrict(Pivot(df.rows), SplitColumns(Pivot(df.rows), Pivot(df.rows).columns).0)
    ensures high == Restrict(Pivot(df.rows), SplitColumns(Pivot(df.rows), Pivot(df.rows).columns).1)
  {
    df.rows := StripLabels(df.rows);
    var g := Pivot(df.rows);
    var p := SplitColumns(g, g.columns);
    low := Restrict(g, p.0);
    high := Restrict(g, p.1);
  }

  /** The batch of the two frames: the stripped labels split into two
      disjoint sets whose union is every label, a label being in the first
      exactly when its yearly sum is at most 100 in every year. */
  lemma LimitSplitSpec(data: seq<Record<(int, string)>>)
    ensures var g := Pivot(StripLabels(data));
      var p := SplitColumns(g, g.columns);
      && Distinct(p.0) && Distinct(p.1)
      && (forall c :: c in p.0 ==> c !in p.1)
      && (forall c :: c in p.0 || c in p.1 <==> c in LabelsOf(StripLabels(data)))
      && (forall c :: c in p.0 <==> (c in LabelsOf(StripLabels(data)) &&
            forall y :: SumWhere(StripLabels(data), (y, c)) <= 100.0))
  {
    var d := StripLabels(data);
    var g := Pivot(d);
    PivotSpec(d);
    forall c | c in g.columns
      ensures AtMostLimit(g, c) <==> forall y :: SumWhere(d, (y, c)) <= 100.0
    {
      if AtMostLimit(g, c) {
        forall y ensures SumWhere(d, (y, c)) <= 100.0 {
          AtRepresents(g, d, y, c);
          var i := YearIndex(g.rows, y);
          if 0 <= i && c in g.rows[i].cells {
            assert g.rows[i] in g.rows;
          }
        }
      } else {
        var row :| row in g.rows && c in row.cells && row.cells[c] > 100.0;
        assert row.cells[c] == SumWhere(d, (row.year, c));
      }
    }
  }

  /** Both frames keep every year row and each kept cell of the unstacked
      frame. */
  lemma LimitFramesCells(data: seq<Record<(int, string)>>, y: int, c: string)
    ensures var g := Pivot(StripLabels(data));
      var p := SplitColumns(g, g.columns);
      && (c in p.0 ==> At(Restrict(g, p.0), y, c) == SumWhere(StripLabels(data), (y, c)))
      && (c in p.1 ==> At(Restrict(g, p.1), y, c) == SumWhere(StripLabels(data), (y, c)))
  {
    var d := StripLabels(data);
    var g := Pivot(d);
    PivotSpec(d);
    AtRepresents(g, d, y, c);
    var p := SplitColumns(g, g.columns);
    RestrictAt(g, p.0, y, c);
    RestrictAt(g, p.1, y, c);
  }

  lemma RestrictAt(g: Grid, cs: seq<string>, y: int, c: string)
    ensures c in cs ==> At(Restrict(g, cs), y, c) == At(g, y, c)
  {
    var h := Restrict(g, cs);
    var i := YearIndex(g.rows, y);
    var j := YearIndex(h.rows, y);
    assert j == i by { YearIndexSameYears(g.rows, h.rows, y); }
  }

  lemma {:induction false} YearIndexSameYears(a: seq<GridRow>, b: seq<GridRow>, y: int)
    requires Years(a) == Years(b)
    ensures YearIndex(a, y) == YearIndex(b, y)
  {
    if a != [] {
      assert |b| == |a|;
      assert Years(a[1..]) == Years(b[1..]) by {
        assert forall k :: 0 <= k < |a| - 1 ==> Years(a[1..])[k] == Years(a)[k + 1] && Years(b[1..])[k] == Years(b)[k + 1];
      }
      assert a[0].year == Years(a)[0] == Years(b)[0] == b[0].year;
      YearIndexSameYears(a[1..], b[1..], y);
    }
  }
}
