/** The string operations the charting code applies to technology and
    emission codes: `str.startswith`, `str.contains`, Python's clamped slice
    `s[lo:hi]`, `str.replace('CO2', '')`, and the code-point order Python
    uses when it sorts string keys. */
module Strings {

  predicate StartsWith(s: string, prefix: string)
  {
    |prefix| <= |s| && s[..|prefix|] == prefix
  }

  /** `sub` occurs in `s` starting at position `i`. */
  predicate OccursAt(s: string, sub: string, i: int)
  {
    0 <= i <= |s| - |sub| && s[i..i + |sub|] == sub
  }

  /** `sub` occurs somewhere in `s`. */
  predicate Contains(s: string, sub: string)
  {
    exists i :: 0 <= i <= |s| - |sub| && OccursAt(s, sub, i)
  }

  function Min(a: int, b: int): int
  {
    if a <= b then a else b
  }

  /** Python `s[lo:hi]` for non-negative bounds: both bounds are clamped to
      the length, and a reversed range is empty. */
  function Slice(s: string, lo: nat, hi: nat): (r: string)
    ensures |r| == if Min(hi, |s|) <= Min(lo, |s|) then 0 else Min(hi, |s|) - Min(lo, |s|)
    ensures forall k :: 0 <= k < |r| ==> r[k] == s[lo + k]
  {
    var a := Min(lo, |s|);
    var b := Min(hi, |s|);
    if b <= a then [] else s[a..b]
  }

  /** `s.replace('CO2', '')`: every occurrence found scanning left to right is
      removed. */
  function StripCo2(s: string): (r: string)
    ensures |r| <= |s|
  {
    if |s| >= 3 && s[..3] == "CO2" then StripCo2(s[3..])
    else if s == [] then []
    else [s[0]] + StripCo2(s[1..])
  }

  /** A label is left alone exactly when it has no "CO2". */
  lemma {:induction false} StripCo2Unchanged(s: string)
    ensures StripCo2(s) == s <==> !Contains(s, "CO2")
  {
    StripCo2Removes(s);
    if |s| >= 3 && s[..3] == "CO2" {
      assert OccursAt(s, "CO2", 0);
    } else if s != [] {
      if Contains(s[1..], "CO2") {
        var i :| 0 <= i <= |s[1..]| - 3 && OccursAt(s[1..], "CO2", i);
        assert s[1..][i..i + 3] == s[i + 1..i + 1 + 3];
        assert OccursAt(s, "CO2", i + 1);
      }
      StripCo2Unchanged(s[1..]);
      assert s == [s[0]] + s[1..];
    }
  }

  /** A label with an occurrence of "CO2" loses at least those three
      characters. */
  lemma {:induction false} StripCo2Removes(s: string)
    ensures Contains(s, "CO2") ==> |StripCo2(s)| <= |s| - 3
  {
    if |s| >= 3 && s[..3] == "CO2" {
    } else if s != [] && Contains(s, "CO2") {
      var i :| 0 <= i <= |s| - 3 && OccursAt(s, "CO2", i);
      assert i != 0;
      assert s[1..][i - 1..i - 1 + 3] == s[i..i + 3];
      assert OccursAt(s[1..], "CO2", i - 1);
      StripCo2Removes(s[1..]);
    }
  }

  /** Python's `<` on strings: lexicographic on code points, a proper prefix
      first. */
  predicate StrLt(a: string, b: string)
  {
    if a == [] then b != []
    else if b == [] then false
    else a[0] < b[0] || (a[0] == b[0] && StrLt(a[1..], b[1..]))
  }

  lemma {:induction false} StrLtIrreflexive(a: string)
    ensures !StrLt(a, a)
  {
    if a != [] {
      StrLtIrreflexive(a[1..]);
    }
  }

  lemma {:induction false} StrLtTransitive(a: string, b: string, c: string)
    requires StrLt(a, b) && StrLt(b, c)
    ensures StrLt(a, c)
  {
    if a != [] && b != [] && c != [] && a[0] == b[0] && b[0] == c[0] {
      StrLtTransitive(a[1..], b[1..], c[1..]);
    }
  }

  lemma {:induction false} StrLtTotal(a: string, b: string)
    requires a != b
    ensures StrLt(a, b) || StrLt(b, a)
  {
    if a != [] && b != [] && a[0] == b[0] {
      assert a == [a[0]] + a[1..] && b == [b[0]] + b[1..];
      StrLtTotal(a[1..], b[1..]);
    }
  }

  lemma StrLtAsymmetric(a: string, b: string)
    requires StrLt(a, b)
    ensures !StrLt(b, a)
  {
    if StrLt(b, a) {
      StrLtTransitive(a, b, a);
      StrLtIrreflexive(a);
    }
  }
}
