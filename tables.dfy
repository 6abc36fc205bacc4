/** Tables as sequences of records: the key columns of a row and its VALUE.
    This module holds what every dataframe step of the charting code is built
    from: column sums, the sum of the rows with one key (a groupby cell),
    groupby-sum itself, the sign filters `DELTA < 0` / `DELTA > 0`, and the
    lookup `series.loc[key]` with the zero that `fillna(0)` gives a missing key. */
module Tables {

  datatype Record<K> = Record(key: K, value: real)

  /** Sum of VALUE over all rows (`df['VALUE'].sum()`). */
  function Total<K(==,!new)>(rows: seq<Record<K>>): real
  {
    if rows == [] then 0.0 else Total(rows[..|rows| - 1]) + rows[|rows| - 1].value
  }

  /** Sum of VALUE over the rows whose key is `k`: one cell of a groupby-sum. */
  function SumWhere<K(==,!new)>(rows: seq<Record<K>>, k: K): real
  {
    if rows == [] then 0.0
    else SumWhere(rows[..|rows| - 1], k) + (if rows[|rows| - 1].key == k then rows[|rows| - 1].value else 0.0)
  }

  /** Number of rows whose key is `k`. */
  function CountWhere<K(==,!new)>(rows: seq<Record<K>>, k: K): nat
  {
    if rows == [] then 0
    else CountWhere(rows[..|rows| - 1], k) + (if rows[|rows| - 1].key == k then 1 else 0)
  }

  function KeysOf<K(==,!new)>(rows: seq<Record<K>>): set<K>
  {
    set r | r in rows :: r.key
  }

  /** The key column as a sequence, in row order (a frame's index). */
  function KeyList<K(==,!new)>(rows: seq<Record<K>>): (ks: seq<K>)
    ensures |ks| == |rows|
    ensures forall i :: 0 <= i < |rows| ==> ks[i] == rows[i].key
  {
    seq(|rows|, i requires 0 <= i < |rows| => rows[i].key)
  }

  ghost predicate DistinctKeys<K(!new)>(rows: seq<Record<K>>)
  {
    forall i, j :: 0 <= i < j < |rows| ==> rows[i].key != rows[j].key
  }

  ghost predicate Distinct<T>(s: seq<T>)
  {
    forall i, j :: 0 <= i < j < |s| ==> s[i] != s[j]
  }

  /** Moving one key from the keys still to handle to the handled ones. */
  lemma MoveKey<T>(remaining: set<T>, done: set<T>, key: T)
    requires key in remaining && remaining !! done
    ensures (remaining - {key}) + (done + {key}) == remaining + done
    ensures (remaining - {key}) !! (done + {key})
  {
  }

  /** A row put in front of a table without its key keeps the keys distinct. */
  lemma ConsKeys<K(!new)>(a: Record<K>, t: seq<Record<K>>)
    requires DistinctKeys(t) && a.key !in KeysOf(t)
    ensures DistinctKeys([a] + t)
    ensures KeysOf([a] + t) == KeysOf(t) + {a.key}
  {
    var r := [a] + t;
    forall j | 1 <= j < |r| ensures r[j].key != a.key {
      assert r[j] == t[j - 1] && t[j - 1] in t;
    }
    assert forall q :: q in r <==> q == a || q in t;
  }

  /** The first row's key is not among the rest, which stay distinct. */
  lemma TailKeys<K(!new)>(s: seq<Record<K>>)
    requires DistinctKeys(s) && s != []
    ensures DistinctKeys(s[1..])
    ensures s[0].key !in KeysOf(s[1..])
    ensures KeysOf(s) == KeysOf(s[1..]) + {s[0].key}
  {
    assert s == [s[0]] + s[1..];
    assert forall q :: q in s <==> q == s[0] || q in s[1..];
    forall q | q in s[1..] ensures q.key != s[0].key {
      var k :| 0 <= k < |s| - 1 && s[1..][k] == q;
      assert s[k + 1] == q;
    }
  }

  lemma KeysOfSnoc<K(!new)>(rows: seq<Record<K>>)
    requires rows != []
    ensures KeysOf(rows) == KeysOf(rows[..|rows| - 1]) + {rows[|rows| - 1].key}
  {
    assert rows == rows[..|rows| - 1] + [rows[|rows| - 1]];
  }

  lemma KeysOfKeyList<K(!new)>(rows: seq<Record<K>>)
    ensures forall k :: k in KeysOf(rows) <==> k in KeyList(rows)
  {
    forall k | k in KeysOf(rows) ensures k in KeyList(rows) {
      var r :| r in rows && r.key == k;
      var i :| 0 <= i < |rows| && rows[i] == r;
      assert KeyList(rows)[i] == k;
    }
  }

  lemma {:induction false} TotalConcat<K(!new)>(a: seq<Record<K>>, b: seq<Record<K>>)
    ensures Total(a + b) == Total(a) + Total(b)
    decreases |b|
  {
    if b == [] {
      assert a + b == a;
    } else {
      assert (a + b)[..|a + b| - 1] == a + b[..|b| - 1];
      TotalConcat(a, b[..|b| - 1]);
    }
  }

  /** Position of the first row with key `k`, or -1. */
  function IndexOf<K(==,!new)>(rows: seq<Record<K>>, k: K): (i: int)
    ensures -1 <= i < |rows|
    ensures i == -1 <==> k !in KeysOf(rows)
    ensures 0 <= i ==> rows[i].key == k && forall j :: 0 <= j < i ==> rows[j].key != k
  {
    if rows == [] then -1
    else if rows[0].key == k then 0
    else
      var j := IndexOf(rows[1..], k);
      assert KeysOf(rows) == KeysOf(rows[1..]) + {rows[0].key} by {
        assert rows == [rows[0]] + rows[1..];
      }
      if j == -1 then -1 else j + 1
  }

  /** `series.loc[k]` after `fillna(0)`: the VALUE of the first row with key
      `k`, and 0 when there is none. */
  function Get<K(==,!new)>(rows: seq<Record<K>>, k: K): real
  {
    var i := IndexOf(rows, k);
    if i < 0 then 0.0 else rows[i].value
  }

  lemma GetMember<K(!new)>(rows: seq<Record<K>>, r: Record<K>)
    requires DistinctKeys(rows)
    requires r in rows
    ensures Get(rows, r.key) == r.value
  {
    var j :| 0 <= j < |rows| && rows[j] == r;
    var i := IndexOf(rows, r.key);
    assert i == j;
  }

  lemma GetAbsent<K(!new)>(rows: seq<Record<K>>, k: K)
    requires k !in KeysOf(rows)
    ensures Get(rows, k) == 0.0
  {
  }

  /** Two key-distinct tables with the same rows answer every lookup alike. */
  lemma GetSameRows<K(!new)>(a: seq<Record<K>>, b: seq<Record<K>>)
    requires DistinctKeys(a) && DistinctKeys(b)
    requires forall r :: r in a <==> r in b
    ensures KeysOf(a) == KeysOf(b)
    ensures forall k :: Get(a, k) == Get(b, k)
  {
    forall k ensures Get(a, k) == Get(b, k) {
      if k in KeysOf(a) {
        var r :| r in a && r.key == k;
        GetMember(a, r);
        GetMember(b, r);
      } else {
        assert k !in KeysOf(b);
      }
    }
  }

  lemma {:induction false} SumWhereAbsent<K(!new)>(rows: seq<Record<K>>, k: K)
    requires k !in KeysOf(rows)
    ensures SumWhere(rows, k) == 0.0
    ensures CountWhere(rows, k) == 0
  {
    if rows != [] {
      KeysOfSnoc(rows);
      SumWhereAbsent(rows[..|rows| - 1], k);
    }
  }

  lemma {:induction false} TotalUpdate<K(!new)>(s: seq<Record<K>>, i: nat, x: Record<K>)
    requires i < |s|
    ensures Total(s[i := x]) == Total(s) - s[i].value + x.value
    decreases |s|
  {
    var t := s[i := x];
    if i < |s| - 1 {
      assert t[..|t| - 1] == s[..|s| - 1][i := x];
      TotalUpdate(s[..|s| - 1], i, x);
    } else {
      assert t[..|t| - 1] == s[..|s| - 1];
    }
  }

  /** One groupby step: add row `r` into the accumulator, either into the
      row that already has its key or as a new last row. */
  function AddTo<K(==,!new)>(acc: seq<Record<K>>, r: Record<K>): seq<Record<K>>
  {
    var i := IndexOf(acc, r.key);
    if i < 0 then acc + [r] else acc[i := Record(r.key, acc[i].value + r.value)]
  }

  lemma AddToSpec<K(!new)>(acc: seq<Record<K>>, r: Record<K>)
    requires DistinctKeys(acc)
    ensures DistinctKeys(AddTo(acc, r))
    ensures KeysOf(AddTo(acc, r)) == KeysOf(acc) + {r.key}
    ensures forall k :: Get(AddTo(acc, r), k) == Get(acc, k) + (if k == r.key then r.value else 0.0)
    ensures Total(AddTo(acc, r)) == Total(acc) + r.value
  {
    var i := IndexOf(acc, r.key);
    if i < 0 {
      assert AddTo(acc, r) == acc + [r];
      AddToAppend(acc, r);
    } else {
      assert AddTo(acc, r) == acc[i := Record(r.key, acc[i].value + r.value)];
      AddToUpdate(acc, r, i);
    }
  }

  lemma AddToAppend<K(!new)>(acc: seq<Record<K>>, r: Record<K>)
    requires DistinctKeys(acc)
    requires r.key !in KeysOf(acc)
    ensures DistinctKeys(acc + [r])
    ensures KeysOf(acc + [r]) == KeysOf(acc) + {r.key}
    ensures forall k :: Get(acc + [r], k) == Get(acc, k) + (if k == r.key then r.value else 0.0)
    ensures Total(acc + [r]) == Total(acc) + r.value
  {
    var res := acc + [r];
    SnocKeys(acc, r);
    TotalConcat(acc, [r]);
    assert Total([r]) == r.value by { assert [r][..0] == []; }
    forall k ensures Get(res, k) == Get(acc, k) + (if k == r.key then r.value else 0.0) {
      if k == r.key {
        assert r in res;
        GetMember(res, r);
      } else if k in KeysOf(acc) {
        var q :| q in acc && q.key == k;
        assert q in res;
        GetMember(acc, q);
        GetMember(res, q);
      }
    }
  }

  /** Replacing a row by one with the same key keeps the keys, and the rows
      are then the new one and the old ones of other keys. */
  lemma UpdateKeys<K(!new)>(acc: seq<Record<K>>, i: nat, x: Record<K>)
    requires DistinctKeys(acc)
    requires i < |acc| && acc[i].key == x.key
    ensures DistinctKeys(acc[i := x])
    ensures KeysOf(acc[i := x]) == KeysOf(acc)
    ensures forall q :: q in acc[i := x] <==> q == x || (q in acc && q.key != x.key)
  {
    var res := acc[i := x];
    assert res[i] == x;
    forall q ensures q in res <==> q == x || (q in acc && q.key != x.key) {
      if q in acc && q.key != x.key {
        var j :| 0 <= j < |acc| && acc[j] == q;
        assert res[j] == q;
      }
      if q in res && q != x {
        var j :| 0 <= j < |res| && res[j] == q;
        assert j != i && acc[j] == q;
      }
    }
    assert acc[i] in acc;
  }

  /** A row appended to a table without its key keeps the keys distinct. */
  lemma SnocKeys<K(!new)>(acc: seq<Record<K>>, r: Record<K>)
    requires DistinctKeys(acc) && r.key !in KeysOf(acc)
    ensures DistinctKeys(acc + [r])
    ensures KeysOf(acc + [r]) == KeysOf(acc) + {r.key}
  {
    var res := acc + [r];
    KeysOfSnoc(res);
    assert res[..|res| - 1] == acc;
    forall i | 0 <= i < |acc| ensures res[i].key != r.key {
      assert res[i] == acc[i] && acc[i] in acc;
    }
  }

  lemma AddToUpdate<K(!new)>(acc: seq<Record<K>>, r: Record<K>, i: nat)
    requires DistinctKeys(acc)
    requires i < |acc| && acc[i].key == r.key
    ensures var res := acc[i := Record(r.key, acc[i].value + r.value)];
      && DistinctKeys(res)
      && KeysOf(res) == KeysOf(acc) + {r.key}
      && (forall k :: Get(res, k) == Get(acc, k) + (if k == r.key then r.value else 0.0))
      && Total(res) == Total(acc) + r.value
  {
    var x := Record(r.key, acc[i].value + r.value);
    var res := acc[i := x];
    UpdateKeys(acc, i, x);
    TotalUpdate(acc, i, x);
    forall k ensures Get(res, k) == Get(acc, k) + (if k == r.key then r.value else 0.0) {
      if k == r.key {
        GetMember(res, x);
        GetMember(acc, acc[i]);
      } else if k in KeysOf(acc) {
        var q :| q in acc && q.key == k;
        GetMember(acc, q);
        GetMember(res, q);
      } else {
        assert k !in KeysOf(res);
      }
    }
  }

  /** `groupby(key)['VALUE'].sum()`: one row per distinct key, holding the sum
      of the rows with that key. Rows come in order of first appearance. */
  function GroupSum<K(==,!new)>(rows: seq<Record<K>>): (g: seq<Record<K>>)
    ensures DistinctKeys(g)
    ensures KeysOf(g) == KeysOf(rows)
    ensures forall k :: Get(g, k) == SumWhere(rows, k)
  {
    if rows == [] then []
    else
      KeysOfSnoc(rows);
      AddToSpec(GroupSum(rows[..|rows| - 1]), rows[|rows| - 1]);
      AddTo(GroupSum(rows[..|rows| - 1]), rows[|rows| - 1])
  }

  /** Each grouped row holds the sum of the input rows with its key. */
  lemma GroupSumRow<K(!new)>(rows: seq<Record<K>>, i: nat)
    requires i < |GroupSum(rows)|
    ensures GroupSum(rows)[i].value == SumWhere(rows, GroupSum(rows)[i].key)
    ensures GroupSum(rows)[i].key in KeysOf(rows)
  {
    GetMember(GroupSum(rows), GroupSum(rows)[i]);
  }

  /** Grouping keeps the grand total. */
  lemma {:induction false} GroupSumTotal<K(!new)>(rows: seq<Record<K>>)
    ensures Total(GroupSum(rows)) == Total(rows)
  {
    if rows != [] {
      KeysOfSnoc(rows);
      GroupSumTotal(rows[..|rows| - 1]);
      AddToSpec(GroupSum(rows[..|rows| - 1]), rows[|rows| - 1]);
    }
  }

  /** The rows with `VALUE < 0`, in order. */
  function Negatives<K(==,!new)>(rows: seq<Record<K>>): (r: seq<Record<K>>)
    ensures forall x :: x in r <==> x in rows && x.value < 0.0
  {
    if rows == [] then []
    else
      assert rows == rows[..|rows| - 1] + [rows[|rows| - 1]];
      Negatives(rows[..|rows| - 1]) + (if rows[|rows| - 1].value < 0.0 then [rows[|rows| - 1]] else [])
  }

  /** The rows with `VALUE > 0`, in order. */
  function Positives<K(==,!new)>(rows: seq<Record<K>>): (r: seq<Record<K>>)
    ensures forall x :: x in r <==> x in rows && x.value > 0.0
  {
    if rows == [] then []
    else
      assert rows == rows[..|rows| - 1] + [rows[|rows| - 1]];
      Positives(rows[..|rows| - 1]) + (if rows[|rows| - 1].value > 0.0 then [rows[|rows| - 1]] else [])
  }

  lemma SumWhereSnoc<K(!new)>(a: seq<Record<K>>, b: seq<Record<K>>, k: K)
    requires |b| <= 1
    ensures SumWhere(a + b, k) == SumWhere(a, k) + SumWhere(b, k)
  {
    if |b| == 1 {
      assert (a + b)[..|a + b| - 1] == a;
      assert b[..0] == [];
    } else {
      assert a + b == a;
    }
  }

  /** One row more at the end adds that row to the part with its sign. */
  lemma SignSnoc<K(!new)>(rows: seq<Record<K>>)
    requires rows != []
    ensures var init, last := rows[..|rows| - 1], rows[|rows| - 1];
      && Negatives(rows) == Negatives(init) + (if last.value < 0.0 then [last] else [])
      && Positives(rows) == Positives(init) + (if last.value > 0.0 then [last] else [])
  {
  }

  lemma SumWhereSingle<K(!new)>(x: Record<K>, k: K)
    ensures SumWhere([x], k) == if x.key == k then x.value else 0.0
    ensures Total([x]) == x.value
  {
    assert [x][..0] == [];
  }

  lemma {:induction false} NegativesSumWhere<K(!new)>(rows: seq<Record<K>>, k: K)
    ensures SumWhere(Negatives(rows), k) <= 0.0
    ensures SumWhere(Negatives(rows), k) == SumWhere(rows, k) - SumWhere(Positives(rows), k)
  {
    if rows != [] {
      var init, last := rows[..|rows| - 1], rows[|rows| - 1];
      NegativesSumWhere(init, k);
      var n := if last.value < 0.0 then [last] else [];
      var p := if last.value > 0.0 then [last] else [];
      SignSnoc(rows);
      SumWhereSnoc(Negatives(init), n, k);
      SumWhereSnoc(Positives(init), p, k);
      SumWhereSingle(last, k);
      assert SumWhere(rows, k) == SumWhere(init, k) + SumWhere([last], k);
      assert SumWhere(n, k) + SumWhere(p, k) == SumWhere([last], k) by {
        if last.value < 0.0 {
          assert n == [last] && p == [];
        } else if last.value > 0.0 {
          assert n == [] && p == [last];
        } else {
          assert n == [] && p == [];
        }
      }
      assert SumWhere(n, k) <= 0.0 by {
        if last.value < 0.0 { assert n == [last]; } else { assert n == []; }
      }
    }
  }

  lemma {:induction false} PositivesSumWhere<K(!new)>(rows: seq<Record<K>>, k: K)
    ensures SumWhere(Positives(rows), k) >= 0.0
  {
    if rows != [] {
      var init, last := rows[..|rows| - 1], rows[|rows| - 1];
      PositivesSumWhere(init, k);
      var p := if last.value > 0.0 then [last] else [];
      SignSnoc(rows);
      SumWhereSnoc(Positives(init), p, k);
      SumWhereSingle(last, k);
      assert SumWhere(p, k) >= 0.0 by {
        if last.value > 0.0 { assert p == [last]; } else { assert p == []; }
      }
    }
  }

  /** For every key the negative and positive parts are signed and add up to
      the key's whole sum (rows of value 0 contribute nothing). */
  lemma SignSplitSumWhere<K(!new)>(rows: seq<Record<K>>, k: K)
    ensures SumWhere(Negatives(rows), k) <= 0.0
    ensures SumWhere(Positives(rows), k) >= 0.0
    ensures SumWhere(Negatives(rows), k) + SumWhere(Positives(rows), k) == SumWhere(rows, k)
  {
    NegativesSumWhere(rows, k);
    PositivesSumWhere(rows, k);
  }

  /** The same for the grand totals. */
  lemma {:induction false} SignSplitTotal<K(!new)>(rows: seq<Record<K>>)
    ensures Total(Negatives(rows)) <= 0.0
    ensures Total(Positives(rows)) >= 0.0
    ensures Total(Negatives(rows)) + Total(Positives(rows)) == Total(rows)
  {
    if rows != [] {
      var init, last := rows[..|rows| - 1], rows[|rows| - 1];
      SignSplitTotal(init);
      var n := if last.value < 0.0 then [last] else [];
      var p := if last.value > 0.0 then [last] else [];
      SignSnoc(rows);
      TotalConcat(Negatives(init), n);
      TotalConcat(Positives(init), p);
      SumWhereSingle(last, last.key);
      assert Total(n) <= 0.0 && Total(p) >= 0.0 && Total(n) + Total(p) == last.value by {
        if last.value < 0.0 {
          assert n == [last] && p == [];
        } else if last.value > 0.0 {
          assert n == [] && p == [last];
        } else {
          assert n == [] && p == [];
        }
      }
    }
  }

  lemma NegativesKeys<K(!new)>(rows: seq<Record<K>>)
    ensures KeysOf(Negatives(rows)) <= KeysOf(rows)
    ensures KeysOf(Positives(rows)) <= KeysOf(rows)
  {
  }

  /** The sum of the lookups `Get(rows, k)` over a list of keys. */
  function SumGet<K(==,!new)>(ks: seq<K>, rows: seq<Record<K>>): real
  {
    if ks == [] then 0.0 else Get(rows, ks[0]) + SumGet(ks[1..], rows)
  }

  lemma {:induction false} SumGetRemove<K(!new)>(ks: seq<K>, rows: seq<Record<K>>, j: nat)
    requires j < |ks|
    ensures SumGet(ks, rows) == SumGet(ks[..j] + ks[j + 1..], rows) + Get(rows, ks[j])
  {
    if j > 0 {
      SumGetRemove(ks[1..], rows, j - 1);
      assert ks[..j] + ks[j + 1..] == [ks[0]] + (ks[1..][..j - 1] + ks[1..][j..]);
    } else {
      assert ks[..j] + ks[j + 1..] == ks[1..];
    }
  }

  lemma {:induction false} SumGetCongruent<K(!new)>(ks: seq<K>, a: seq<Record<K>>, b: seq<Record<K>>)
    requires forall k :: k in ks ==> Get(a, k) == Get(b, k)
    ensures SumGet(ks, a) == SumGet(ks, b)
  {
    if ks != [] {
      assert ks[0] in ks;
      assert forall k :: k in ks[1..] ==> k in ks;
      SumGetCongruent(ks[1..], a, b);
    }
  }

  /** The list without its j-th entry holds the other entries, each once. */
  lemma RemoveAt<T>(ks: seq<T>, j: nat)
    requires j < |ks| && Distinct(ks)
    ensures forall k :: k in ks[..j] + ks[j + 1..] <==> k in ks && k != ks[j]
    ensures Distinct(ks[..j] + ks[j + 1..])
  {
    var rest := ks[..j] + ks[j + 1..];
    assert |rest| == |ks| - 1;
    assert forall i :: 0 <= i < |rest| ==> rest[i] == if i < j then ks[i] else ks[i + 1];
    forall k ensures k in rest <==> k in ks && k != ks[j] {
      if k in ks && k != ks[j] {
        var i :| 0 <= i < |ks| && ks[i] == k;
        if i < j { assert rest[i] == k; } else { assert rest[i - 1] == k; }
      }
    }
  }

  lemma HeadMember<T>(ks: seq<T>)
    ensures ks != [] ==> ks[0] in ks
  {
  }

  /** The last row of a table with distinct keys has a key no earlier row has. */
  lemma LastKeyFresh<K(!new)>(rows: seq<Record<K>>)
    requires rows != [] && DistinctKeys(rows)
    ensures DistinctKeys(rows[..|rows| - 1])
    ensures rows[|rows| - 1].key !in KeysOf(rows[..|rows| - 1])
    ensures rows == rows[..|rows| - 1] + [rows[|rows| - 1]]
  {
    var init := rows[..|rows| - 1];
    forall q | q in init ensures q.key != rows[|rows| - 1].key {
      var i :| 0 <= i < |init| && init[i] == q;
      assert rows[i] == q;
    }
  }

  /** Looking up every key of a table once, in any order, adds up to its
      total. */
  lemma {:induction false} SumGetTotal<K(!new)>(ks: seq<K>, rows: seq<Record<K>>)
    requires DistinctKeys(rows)
    requires Distinct(ks)
    requires forall k :: k in ks <==> k in KeysOf(rows)
    ensures SumGet(ks, rows) == Total(rows)
  {
    if rows == [] {
      HeadMember(ks);
    } else {
      var init := rows[..|rows| - 1];
      var r := rows[|rows| - 1];
      LastKeyFresh(rows);
      KeysOfSnoc(rows);
      assert r.key in ks;
      var j :| 0 <= j < |ks| && ks[j] == r.key;
      var rest := ks[..j] + ks[j + 1..];
      RemoveAt(ks, j);
      SumGetRemove(ks, rows, j);
      SumGetTotal(rest, init);
      AddToAppend(init, r);
      GetAbsent(init, r.key);
      SumGetCongruent(rest, rows, init);
    }
  }

  /** Distinct elements in order of first appearance (`Series.unique()`). */
  function Dedup<T(==,!new)>(s: seq<T>): (d: seq<T>)
    ensures forall x :: x in d <==> x in s
    ensures Distinct(d)
    ensures |d| <= |s|
  {
    if s == [] then []
    else
      assert s == s[..|s| - 1] + [s[|s| - 1]];
      var p := Dedup(s[..|s| - 1]);
      if s[|s| - 1] in p then p else p + [s[|s| - 1]]
  }
}
