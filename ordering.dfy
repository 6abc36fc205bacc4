/** The orders in which the multi-scenario charts lay out their bars:
    `sort_values(by = ['VALUE'])` ascending or descending, and `sort_index()`
    on string keys. `sort_values` uses an unstable sort, so only the order of
    the values is promised, not the order of ties; the model sorts by
    insertion. */
module Ordering {
  import opened Tables
  import opened Strings

  datatype Order = ByValueAscending | ByValueDescending | ByKey

  /** `a` may stand before `b`. */
  predicate Before(o: Order, a: Record<string>, b: Record<string>)
  {
    match o
    case ByValueAscending => a.value <= b.value
    case ByValueDescending => a.value >= b.value
    case ByKey => !StrLt(b.key, a.key)
  }

  ghost predicate SortedBy(o: Order, s: seq<Record<string>>)
  {
    forall i, j :: 0 <= i < j < |s| ==> Before(o, s[i], s[j])
  }

  /** Keys strictly ascending, as after `sort_index()` on a unique index. */
  ghost predicate KeysAscending(s: seq<Record<string>>)
  {
    forall i, j :: 0 <= i < j < |s| ==> StrLt(s[i].key, s[j].key)
  }

  lemma BeforeTotal(o: Order, a: Record<string>, b: Record<string>)
    ensures Before(o, a, b) || Before(o, b, a)
  {
    if o.ByKey? && a.key != b.key {
      StrLtTotal(a.key, b.key);
      if StrLt(a.key, b.key) {
        StrLtAsymmetric(a.key, b.key);
      } else {
        StrLtAsymmetric(b.key, a.key);
      }
    } else if o.ByKey? {
      StrLtIrreflexive(a.key);
    }
  }

  lemma BeforeTransitive(o: Order, a: Record<string>, b: Record<string>, c: Record<string>)
    requires Before(o, a, b) && Before(o, b, c)
    ensures Before(o, a, c)
  {
    if o.ByKey? {
      if a.key != b.key {
        StrLtTotal(a.key, b.key);
      }
      if b.key != c.key {
        StrLtTotal(b.key, c.key);
      }
      if a.key == c.key {
        StrLtIrreflexive(a.key);
      } else if a.key == b.key || b.key == c.key {
        StrLtAsymmetric(a.key, c.key);
      } else {
        StrLtTransitive(a.key, b.key, c.key);
        StrLtAsymmetric(a.key, c.key);
      }
    }
  }

  /** Insert `x` into a sorted sequence before the first element it may precede. */
  function Insert(o: Order, x: Record<string>, s: seq<Record<string>>): seq<Record<string>>
  {
    if s == [] then [x]
    else if Before(o, x, s[0]) then [x] + s
    else [s[0]] + Insert(o, x, s[1..])
  }

  /** Inserting into a sorted sequence keeps it sorted and adds exactly `x`. */
  lemma {:induction false} InsertSpec(o: Order, x: Record<string>, s: seq<Record<string>>)
    requires SortedBy(o, s)
    ensures SortedBy(o, Insert(o, x, s))
    ensures multiset(Insert(o, x, s)) == multiset(s) + multiset{x}
  {
    InsertPermutes(o, x, s);
    if s == [] {
    } else if Before(o, x, s[0]) {
      forall j | 0 <= j < |s| ensures Before(o, x, s[j]) {
        if j > 0 {
          BeforeTransitive(o, x, s[0], s[j]);
        }
      }
      ConsSorted(o, x, s);
    } else {
      BeforeTotal(o, x, s[0]);
      InsertSpec(o, x, s[1..]);
      var t := Insert(o, x, s[1..]);
      forall j | 0 <= j < |t| ensures Before(o, s[0], t[j]) {
        assert t[j] in multiset(t);
        if t[j] != x {
          var k :| 0 <= k < |s| - 1 && s[1..][k] == t[j];
          assert s[k + 1] == t[j];
        }
      }
      ConsSorted(o, s[0], t);
    }
  }

  lemma {:induction false} InsertPermutes(o: Order, x: Record<string>, s: seq<Record<string>>)
    ensures multiset(Insert(o, x, s)) == multiset(s) + multiset{x}
  {
    if s != [] && !Before(o, x, s[0]) {
      InsertPermutes(o, x, s[1..]);
      assert s == [s[0]] + s[1..];
    }
  }

  /** A row ordered before every row of a sorted sequence can lead it. */
  lemma ConsSorted(o: Order, a: Record<string>, t: seq<Record<string>>)
    requires SortedBy(o, t)
    requires forall j :: 0 <= j < |t| ==> Before(o, a, t[j])
    ensures SortedBy(o, [a] + t)
  {
    var r := [a] + t;
    forall i, j | 0 <= i < j < |r| ensures Before(o, r[i], r[j]) {
      assert r[j] == t[j - 1];
      if i > 0 {
        assert r[i] == t[i - 1];
      }
    }
  }

  /** Sorted in order `o`, and a permutation of the input. */
  function Sort(o: Order, s: seq<Record<string>>): (r: seq<Record<string>>)
    ensures SortedBy(o, r)
    ensures multiset(r) == multiset(s)
  {
    if s == [] then []
    else
      assert s == [s[0]] + s[1..];
      InsertSpec(o, s[0], Sort(o, s[1..]));
      Insert(o, s[0], Sort(o, s[1..]))
  }

  lemma PermutationKeys(a: seq<Record<string>>, b: seq<Record<string>>)
    requires multiset(a) == multiset(b)
    ensures forall r :: r in a <==> r in b
    ensures KeysOf(a) == KeysOf(b)
  {
    forall r ensures r in a <==> r in b {
      assert r in a <==> r in multiset(a);
      assert r in b <==> r in multiset(b);
    }
  }

  /** Sorting a table with distinct keys keeps the keys distinct. */
  lemma {:induction false} SortDistinct(o: Order, s: seq<Record<string>>)
    requires DistinctKeys(s)
    ensures DistinctKeys(Sort(o, s))
  {
    if s != [] {
      assert s == [s[0]] + s[1..];
      SortDistinct(o, s[1..]);
      PermutationKeys(Sort(o, s[1..]), s[1..]);
      InsertDistinct(o, s[0], Sort(o, s[1..]));
    }
  }

  lemma {:induction false} InsertDistinct(o: Order, x: Record<string>, s: seq<Record<string>>)
    requires DistinctKeys(s) && x.key !in KeysOf(s)
    ensures DistinctKeys(Insert(o, x, s))
    ensures KeysOf(Insert(o, x, s)) == KeysOf(s) + {x.key}
  {
    var r := Insert(o, x, s);
    if s == [] {
      ConsKeys(x, s);
    } else if Before(o, x, s[0]) {
      ConsKeys(x, s);
    } else {
      TailKeys(s);
      InsertDistinct(o, x, s[1..]);
      assert s[0].key != x.key by { assert s[0] in s; }
      ConsKeys(s[0], Insert(o, x, s[1..]));
    }
  }

  lemma SortByKeyAscending(s: seq<Record<string>>)
    requires DistinctKeys(s)
    ensures KeysAscending(Sort(ByKey, s))
  {
    var r := Sort(ByKey, s);
    SortDistinct(ByKey, s);
    forall i, j | 0 <= i < j < |r| ensures StrLt(r[i].key, r[j].key) {
      StrLtTotal(r[i].key, r[j].key);
    }
  }
}
