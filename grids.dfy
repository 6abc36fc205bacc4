/** Unstacked frames: the result of
    `groupby(['YEAR', label])[col].sum().unstack().fillna(0)`, one row per
    YEAR and one column per label (a technology or an emission), with the
    cell lookup `df.loc[year, label]` and `sort_index()` on the year index. */
module Grids {
  import opened Tables

  datatype GridRow = GridRow(year: int, cells: map<string, real>)

  datatype Grid = Grid(columns: seq<string>, rows: seq<GridRow>)

  /** The year index, in row order. */
  function Years(rows: seq<GridRow>): (ys: seq<int>)
    ensures |ys| == |rows|
    ensures forall i :: 0 <= i < |rows| ==> ys[i] == rows[i].year
  {
    seq(|rows|, i requires 0 <= i < |rows| => rows[i].year)
  }

  /** `df.empty`: no rows or no columns. */
  predicate IsEmpty(g: Grid)
  {
    |g.rows| == 0 || |g.columns| == 0
  }

  function YearsOf(data: seq<Record<(int, string)>>): set<int>
  {
    set r | r in data :: r.key.0
  }

  function LabelsOf(data: seq<Record<(int, string)>>): set<string>
  {
    set r | r in data :: r.key.1
  }

  /** `g` is an unstacked view of `data`: distinct years and labels, every
      data key has its row and column, every row has exactly the grid's
      columns, and each cell holds the sum of the data rows with its
      (year, label) key, which is 0 for a cell with no data row. */
  ghost predicate Represents(g: Grid, data: seq<Record<(int, string)>>)
  {
    && Distinct(g.columns)
    && Distinct(Years(g.rows))
    && (forall r :: r in data ==> r.key.0 in Years(g.rows) && r.key.1 in g.columns)
    && (forall row, c :: row in g.rows ==> (c in row.cells <==> c in g.columns))
    && (forall row, c :: row in g.rows && c in g.columns ==> row.cells[c] == SumWhere(data, (row.year, c)))
  }

  function YearColumn(data: seq<Record<(int, string)>>): (ys: seq<int>)
    ensures forall y :: y in ys <==> y in YearsOf(data)
  {
    var ys := seq(|data|, i requires 0 <= i < |data| => data[i].key.0);
    assert forall y :: y in YearsOf(data) ==> y in ys by {
      forall y | y in YearsOf(data) ensures y in ys {
        var r :| r in data && r.key.0 == y;
        var i :| 0 <= i < |data| && data[i] == r;
        assert ys[i] == y;
      }
    }
    ys
  }

  function LabelColumn(data: seq<Record<(int, string)>>): (cs: seq<string>)
    ensures forall c :: c in cs <==> c in LabelsOf(data)
  {
    var cs := seq(|data|, i requires 0 <= i < |data| => data[i].key.1);
    assert forall c :: c in LabelsOf(data) ==> c in cs by {
      forall c | c in LabelsOf(data) ensures c in cs {
        var r :| r in data && r.key.1 == c;
        var i :| 0 <= i < |data| && data[i] == r;
        assert cs[i] == c;
      }
    }
    cs
  }

  /** groupby-sum over (YEAR, label), then unstack with `fillna(0)`. */
  function Pivot(data: seq<Record<(int, string)>>): Grid
  {
    var sums := GroupSum(data);
    var years := Dedup(YearColumn(data));
    var columns := Dedup(LabelColumn(data));
    Grid(columns, seq(|years|, i requires 0 <= i < |years| =>
      GridRow(years[i], map c | c in columns :: Get(sums, (years[i], c)))))
  }

  lemma PivotSpec(data: seq<Record<(int, string)>>)
    ensures Represents(Pivot(data), data)
    ensures forall y :: y in Years(Pivot(data).rows) <==> y in YearsOf(data)
    ensures forall c :: c in Pivot(data).columns <==> c in LabelsOf(data)
    ensures IsEmpty(Pivot(data)) <==> data == []
  {
    var g := Pivot(data);
    var years := Dedup(YearColumn(data));
    assert Years(g.rows) == years;
    if data != [] {
      assert data[0].key.0 in YearsOf(data);
      assert data[0].key.1 in LabelsOf(data);
    }
  }

  /** Position of the row of year `y`, or -1. */
  function YearIndex(rows: seq<GridRow>, y: int): (i: int)
    ensures -1 <= i < |rows|
    ensures 0 <= i ==> rows[i].year == y
    ensures i < 0 ==> y !in Years(rows)
  {
    if rows == [] then -1
    else if rows[0].year == y then 0
    else
      var j := YearIndex(rows[1..], y);
      assert forall k :: 0 <= k < |rows| - 1 ==> Years(rows[1..])[k] == Years(rows)[k + 1];
      if j < 0 then -1 else j + 1
  }

  /** `df.loc[y, c]` with 0 for a missing row or column. */
  function At(g: Grid, y: int, c: string): real
  {
    var i := YearIndex(g.rows, y);
    if i < 0 || c !in g.rows[i].cells then 0.0 else g.rows[i].cells[c]
  }

  /** Every lookup in a grid that represents `data` is the sum of the data
      rows with that key, and 0 where there are none. */
  lemma AtRepresents(g: Grid, data: seq<Record<(int, string)>>, y: int, c: string)
    requires Represents(g, data)
    ensures At(g, y, c) == SumWhere(data, (y, c))
  {
    var i := YearIndex(g.rows, y);
    if i < 0 || c !in g.rows[i].cells {
      forall r | r in data ensures r.key != (y, c) {
        if r.key.0 == y && 0 <= i {
          assert g.rows[i] in g.rows;
        }
      }
      SumWhereAbsent(data, (y, c));
    } else {
      assert g.rows[i] in g.rows;
      assert c in g.columns;
    }
  }

  /** The row `df.loc[idx] = 0` appends. */
  function ZeroRow(columns: seq<string>): map<string, real>
  {
    map c | c in columns :: 0.0
  }

  ghost predicate YearsAscending(rows: seq<GridRow>)
  {
    forall i, j :: 0 <= i < j < |rows| ==> rows[i].year < rows[j].year
  }

  ghost predicate YearsNondecreasing(rows: seq<GridRow>)
  {
    forall i, j :: 0 <= i < j < |rows| ==> rows[i].year <= rows[j].year
  }

  function InsertRow(x: GridRow, rows: seq<GridRow>): seq<GridRow>
  {
    if rows == [] then [x]
    else if x.year <= rows[0].year then [x] + rows
    else [rows[0]] + InsertRow(x, rows[1..])
  }

  lemma {:induction false} InsertRowMembers(x: GridRow, rows: seq<GridRow>)
    ensures multiset(InsertRow(x, rows)) == multiset(rows) + multiset{x}
    ensures forall q :: q in InsertRow(x, rows) <==> q == x || q in rows
  {
    if rows != [] && x.year > rows[0].year {
      assert rows == [rows[0]] + rows[1..];
      InsertRowMembers(x, rows[1..]);
    }
  }

  lemma {:induction false} InsertRowSorted(x: GridRow, rows: seq<GridRow>)
    requires YearsNondecreasing(rows)
    ensures YearsNondecreasing(InsertRow(x, rows))
  {
    if rows != [] && x.year > rows[0].year {
      InsertRowSorted(x, rows[1..]);
      InsertRowMembers(x, rows[1..]);
      var t := InsertRow(x, rows[1..]);
      forall j | 0 <= j < |t| ensures rows[0].year <= t[j].year {
        assert t[j] in t;
      }
    }
  }

  lemma {:induction false} InsertRowAscending(x: GridRow, rows: seq<GridRow>)
    requires YearsAscending(rows)
    requires forall q :: q in rows ==> q.year != x.year
    ensures YearsAscending(InsertRow(x, rows))
  {
    if rows != [] && x.year > rows[0].year {
      InsertRowAscending(x, rows[1..]);
      InsertRowMembers(x, rows[1..]);
      var t := InsertRow(x, rows[1..]);
      forall j | 0 <= j < |t| ensures rows[0].year < t[j].year {
        assert t[j] in t;
      }
    } else if rows != [] {
      assert rows[0] in rows;
    }
  }

  /** `sort_index()` on the year index: non-decreasing years, a permutation of
      the rows, strictly ascending when the years are distinct. */
  function SortByYear(rows: seq<GridRow>): (r: seq<GridRow>)
    ensures YearsNondecreasing(r)
    ensures multiset(r) == multiset(rows)
    ensures Distinct(Years(rows)) ==> YearsAscending(r)
  {
    if rows == [] then []
    else
      assert rows == [rows[0]] + rows[1..];
      var t := SortByYear(rows[1..]);
      InsertRowMembers(rows[0], t);
      InsertRowSorted(rows[0], t);
      SortByYearAscending(rows, t);
      InsertRow(rows[0], t)
  }

  lemma SortByYearAscending(rows: seq<GridRow>, t: seq<GridRow>)
    requires rows != []
    requires multiset(t) == multiset(rows[1..])
    requires Distinct(Years(rows[1..])) ==> YearsAscending(t)
    ensures Distinct(Years(rows)) ==> YearsAscending(InsertRow(rows[0], t))
  {
    if Distinct(Years(rows)) {
      assert forall k :: 0 <= k < |rows| - 1 ==> Years(rows[1..])[k] == Years(rows)[k + 1];
      forall q | q in t ensures q.year != rows[0].year {
        assert q in multiset(rows[1..]);
        var m :| 0 <= m < |rows| - 1 && rows[1..][m] == q;
        assert Years(rows)[m + 1] == q.year;
      }
      InsertRowAscending(rows[0], t);
    }
  }

  lemma AscendingDistinct(rows: seq<GridRow>)
    requires YearsAscending(rows)
    ensures Distinct(Years(rows))
  {
  }

  /** Sorting the rows keeps what the grid represents. */
  lemma SortKeepsRepresents(g: Grid, data: seq<Record<(int, string)>>)
    requires Represents(g, data)
    ensures Represents(Grid(g.columns, SortByYear(g.rows)), data)
    ensures YearsAscending(SortByYear(g.rows))
    ensures forall y :: y in Years(SortByYear(g.rows)) <==> y in Years(g.rows)
  {
    var r := SortByYear(g.rows);
    assert forall row :: row in r <==> row in g.rows by {
      forall row ensures row in r <==> row in g.rows {
        assert row in r <==> row in multiset(r);
        assert row in g.rows <==> row in multiset(g.rows);
      }
    }
    forall y ensures y in Years(r) <==> y in Years(g.rows) {
      if y in Years(r) {
        var k :| 0 <= k < |r| && Years(r)[k] == y;
        assert r[k] in g.rows;
        var m :| 0 <= m < |g.rows| && g.rows[m] == r[k];
        assert Years(g.rows)[m] == y;
      }
      if y in Years(g.rows) {
        var k :| 0 <= k < |g.rows| && Years(g.rows)[k] == y;
        assert g.rows[k] in r;
        var m :| 0 <= m < |r| && r[m] == g.rows[k];
        assert Years(r)[m] == y;
      }
    }
    AscendingDistinct(r);
  }
}
