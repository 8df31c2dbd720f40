/**
 * The column order of `pandas.get_dummies`: the distinct values of a column
 * in ascending order (code-point order for strings, numeric order for floats).
 * `DataWrapper` takes its vocabularies (`words_to_int`, `int_to_words`) and
 * its `cat_labels` from these columns.
 */
module Dummies {
  import opened Text

  // ---------------------------------------------------------------------
  // String labels
  // ---------------------------------------------------------------------

  predicate Ascending(t: seq<string>)
  {
    forall i, j :: 0 <= i < j < |t| ==> Less(t[i], t[j])
  }

  lemma PrependAscending(w: string, t: seq<string>)
    requires Ascending(t) && t != [] && Less(w, t[0])
    ensures Ascending([w] + t)
  {
    forall j | 0 < j < |t| ensures Less(w, t[j]) {
      LessTransitive(w, t[0], t[j]);
    }
  }

  /** Inserts one label into an ascending, duplicate-free list of labels. */
  function InsertLabel(w: string, t: seq<string>): (r: seq<string>)
    requires Ascending(t)
    ensures Ascending(r)
    ensures forall x :: x in r <==> x == w || x in t
    decreases |t|
  {
    if t == [] then [w]
    else if w == t[0] then t
    else if Less(w, t[0]) then PrependAscending(w, t); [w] + t
    else
      LessTotal(w, t[0]);
      var rest := InsertLabel(w, t[1..]);
      ConsAscending(t[0], rest);
      [t[0]] + rest
  }

  lemma ConsAscending(x: string, u: seq<string>)
    requires Ascending(u) && forall y :: y in u ==> Less(x, y)
    ensures Ascending([x] + u)
  {
    forall i, j | 0 <= i < j < |[x] + u| ensures Less(([x] + u)[i], ([x] + u)[j]) {
      if i == 0 {
        assert ([x] + u)[j] == u[j - 1];
      }
    }
  }

  /** `pd.get_dummies(column).columns` for a column of strings. */
  function DummyLabels(ws: seq<string>): (r: seq<string>)
    ensures Ascending(r)
    ensures forall x :: x in r <==> x in ws
  {
    if ws == [] then []
    else InsertLabel(ws[|ws| - 1], DummyLabels(ws[..|ws| - 1]))
  }

  predicate Distinct<T(==)>(t: seq<T>)
  {
    forall i, j :: 0 <= i < j < |t| ==> t[i] != t[j]
  }

  lemma AscendingDistinct(t: seq<string>)
    requires Ascending(t)
    ensures Distinct(t)
  {
    forall i, j | 0 <= i < j < |t| ensures t[i] != t[j] {
      if t[i] == t[j] {
        LessIrreflexive(t[i]);
      }
    }
  }

  /** A duplicate-free list has as many entries as its set of entries. */
  lemma {:induction false} DistinctCardinality<T>(t: seq<T>)
    requires Distinct(t)
    ensures |set x | x in t| == |t|
  {
    if t != [] {
      var init := t[..|t| - 1];
      assert Distinct(init);
      DistinctCardinality(init);
      assert (set x | x in t) == (set x | x in init) + {t[|t| - 1]};
      assert t[|t| - 1] !in init;
    }
  }

  /** The number of dummy columns is the number of distinct values
      (`df[v].nunique()`). */
  lemma DummyLabelsCount(ws: seq<string>)
    ensures |DummyLabels(ws)| == |set w | w in ws|
  {
    var r := DummyLabels(ws);
    AscendingDistinct(r);
    DistinctCardinality(r);
    assert (set w | w in ws) == (set w | w in r);
  }

  // ---------------------------------------------------------------------
  // Float codes
  // ---------------------------------------------------------------------

  predicate Increasing(t: seq<real>)
  {
    forall i, j :: 0 <= i < j < |t| ==> t[i] < t[j]
  }

  /** Inserts one value into an increasing list of floats. */
  function InsertCode(x: real, t: seq<real>): (r: seq<real>)
    requires Increasing(t)
    ensures Increasing(r)
    ensures forall y :: y in r <==> y == x || y in t
    decreases |t|
  {
    if t == [] then [x]
    else if x == t[0] then t
    else if x < t[0] then
      IncreasingTailAbove(t);
      assert t == [t[0]] + t[1..];
      ConsIncreasing(x, t);
      [x] + t
    else
      var rest := InsertCode(x, t[1..]);
      IncreasingTailAbove(t);
      ConsIncreasing(t[0], rest);
      [t[0]] + rest
  }

  /** Everything after the head of an increasing list is above it. */
  lemma IncreasingTailAbove(t: seq<real>)
    requires Increasing(t) && t != []
    ensures forall y :: y in t[1..] ==> t[0] < y
  {
    forall y | y in t[1..] ensures t[0] < y {
      var k :| 0 <= k < |t[1..]| && t[1..][k] == y;
      assert t[k + 1] == y;
    }
  }

  lemma ConsIncreasing(x: real, u: seq<real>)
    requires Increasing(u) && forall y :: y in u ==> x < y
    ensures Increasing([x] + u)
  {
    forall i, j | 0 <= i < j < |[x] + u| ensures ([x] + u)[i] < ([x] + u)[j] {
      if i == 0 {
        assert ([x] + u)[j] == u[j - 1];
        assert u[j - 1] in u;
      } else {
        assert ([x] + u)[i] == u[i - 1] && ([x] + u)[j] == u[j - 1];
      }
    }
  }

  /** `pd.get_dummies(column).columns` for a column of floats. */
  function DummyCodes(xs: seq<real>): (r: seq<real>)
    ensures Increasing(r)
    ensures forall y :: y in r <==> y in xs
  {
    if xs == [] then []
    else InsertCode(xs[|xs| - 1], DummyCodes(xs[..|xs| - 1]))
  }

  lemma DummyCodesCount(xs: seq<real>)
    ensures |DummyCodes(xs)| == |set x | x in xs|
  {
    var r := DummyCodes(xs);
    assert Distinct(r);
    DistinctCardinality(r);
    assert (set x | x in xs) == (set x | x in r);
  }

  /** An increasing list is determined by its set of entries. */
  lemma {:induction false} IncreasingUnique(a: seq<real>, b: seq<real>)
    requires Increasing(a) && Increasing(b)
    requires forall y :: y in a <==> y in b
    ensures a == b
    decreases |a|
  {
    if a != [] && b != [] {
      assert a[0] in b && b[0] in a;
      assert a[0] == b[0];
      forall y ensures y in a[1..] <==> y in b[1..] {
        if y in a[1..] {
          assert y in b && y != b[0];
        }
        if y in b[1..] {
          assert y in a && y != a[0];
        }
      }
      IncreasingUnique(a[1..], b[1..]);
      assert a == [a[0]] + a[1..] && b == [b[0]] + b[1..];
    } else if a != [] {
      HeadIsMember(a);
    } else if b != [] {
      HeadIsMember(b);
    }
  }

  lemma HeadIsMember(a: seq<real>)
    requires a != []
    ensures a[0] in a
  {
  }

  /** `[0.0, 1.0, …, k-1]`, the float codes `0..k-1`. */
  function Range(k: nat): (r: seq<real>)
    ensures |r| == k && forall i :: 0 <= i < k ==> r[i] == i as real
  {
    seq(k, i => i as real)
  }

  /** The dummy columns of a column whose values are exactly the codes
      `0..k-1` are those codes, in order. */
  lemma DummyCodesOfRange(xs: seq<real>, k: nat)
    requires forall y :: y in xs <==> y in Range(k)
    ensures DummyCodes(xs) == Range(k)
  {
    IncreasingUnique(DummyCodes(xs), Range(k));
  }
}
