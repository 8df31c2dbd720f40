/**
 * Token features of a comma-separated word column: `collect_features`
 * counts tokens, `get_top_features` keeps the most frequent ones and
 * `make_feature_vector` turns one observation into a 0/1 indicator vector.
 *
 * A Python dict is insertion ordered; it is modelled as a sequence of
 * (key, count) pairs with pairwise distinct keys, in insertion order.
 */
module Features {
  import opened Wrappers
  import opened Text
  import opened Dummies

  /** One cell of the word column: a string, or any other Python value
      (NaN, a number) whose missing `.split` raises inside the bare `try`. */
  datatype Observation = Str(s: string) | NonString

  type Counts = seq<(string, int)>

  const Comma: char := ','

  /** The tokens of a string observation. */
  function Tokens(s: string): (r: seq<string>)
    ensures |r| == CountChar(s, Comma) + 1
    ensures forall i :: 0 <= i < |r| ==> Comma !in r[i]
  {
    SplitPieces(s, Comma);
    Split(s, Comma)
  }

  function Keys(d: Counts): (r: seq<string>)
    ensures |r| == |d| && forall i :: 0 <= i < |d| ==> r[i] == d[i].0
  {
    seq(|d|, i requires 0 <= i < |d| => d[i].0)
  }

  /** The invariant of a dict of counts: distinct keys, every count at least 1. */
  predicate WellFormed(d: Counts)
  {
    Distinct(Keys(d)) && forall i :: 0 <= i < |d| ==> d[i].1 >= 1
  }

  /** `d.get(k, 0)`. */
  function Lookup(d: Counts, k: string): int
  {
    if d == [] then 0 else if d[0].0 == k then d[0].1 else Lookup(d[1..], k)
  }

  /** `d[t] = d.setdefault(t, 0) + 1`: an existing key keeps its place, a new
      key goes to the end. */
  function Bump(d: Counts, t: string): Counts
  {
    if d == [] then [(t, 1)]
    else if d[0].0 == t then [(t, d[0].1 + 1)] + d[1..]
    else [d[0]] + Bump(d[1..], t)
  }

  lemma {:induction false} BumpLookup(d: Counts, t: string, k: string)
    ensures Lookup(Bump(d, t), k) == Lookup(d, k) + (if k == t then 1 else 0)
  {
    if d != [] && d[0].0 != t {
      BumpLookup(d[1..], t, k);
    }
  }

  lemma {:induction false} BumpKeys(d: Counts, t: string)
    ensures forall k :: k in Keys(Bump(d, t)) <==> k in Keys(d) || k == t
    ensures WellFormed(d) ==> WellFormed(Bump(d, t))
  {
    if d == [] {
      assert Keys(Bump(d, t)) == [t];
    } else if d[0].0 == t {
      BumpHead(d, t);
    } else {
      BumpKeys(d[1..], t);
      BumpTail(d, t);
    }
  }

  /** Bumping the first key keeps the keys and raises its count. */
  lemma BumpHead(d: Counts, t: string)
    requires d != [] && d[0].0 == t
    ensures Keys(Bump(d, t)) == Keys(d) && t in Keys(d)
    ensures WellFormed(d) ==> WellFormed(Bump(d, t))
  {
    var r := Bump(d, t);
    assert r == [(t, d[0].1 + 1)] + d[1..];
    assert Keys(r) == Keys(d) by {
      forall i | 0 <= i < |d| ensures Keys(r)[i] == Keys(d)[i] {
      }
    }
    assert Keys(d)[0] == t;
  }

  /** Bumping a later key keeps the first entry in front. */
  lemma BumpTail(d: Counts, t: string)
    requires d != [] && d[0].0 != t
    requires forall k :: k in Keys(Bump(d[1..], t)) <==> k in Keys(d[1..]) || k == t
    requires WellFormed(d[1..]) ==> WellFormed(Bump(d[1..], t))
    ensures forall k :: k in Keys(Bump(d, t)) <==> k in Keys(d) || k == t
    ensures WellFormed(d) ==> WellFormed(Bump(d, t))
  {
    var rest := Bump(d[1..], t);
    assert Bump(d, t) == [d[0]] + rest;
    assert d == [d[0]] + d[1..];
    KeysCons(d[0], d[1..]);
    KeysCons(d[0], rest);
    if WellFormed(d) {
      assert Distinct(Keys(d[1..])) by {
        forall i, j | 0 <= i < j < |d[1..]| ensures Keys(d[1..])[i] != Keys(d[1..])[j] {
          assert Keys(d)[i + 1] == Keys(d[1..])[i] && Keys(d)[j + 1] == Keys(d[1..])[j];
        }
      }
      assert WellFormed(d[1..]);
      assert d[0].0 !in Keys(d[1..]);
      DistinctCons(d[0].0, Keys(rest));
    }
  }

  lemma KeysCons(x: (string, int), d: Counts)
    ensures Keys([x] + d) == [x.0] + Keys(d)
  {
  }

  lemma DistinctCons<T>(x: T, s: seq<T>)
    requires Distinct(s) && x !in s
    ensures Distinct([x] + s)
  {
    forall i, j | 0 <= i < j < |[x] + s| ensures ([x] + s)[i] != ([x] + s)[j] {
      if i == 0 {
        assert ([x] + s)[j] == s[j - 1];
      }
    }
  }

  /** Bump is the in-place dictionary update: the count at the key's index
      goes up by one, or a new entry with count 1 is appended. */
  lemma {:induction false} BumpAt(d: Counts, t: string, j: nat)
    requires j <= |d| && forall q :: 0 <= q < j ==> d[q].0 != t
    requires j < |d| ==> d[j].0 == t
    ensures Bump(d, t) == if j < |d| then d[j := (t, d[j].1 + 1)] else d + [(t, 1)]
  {
    if d != [] && j > 0 {
      BumpAt(d[1..], t, j - 1);
      if j < |d| {
        assert d[j := (t, d[j].1 + 1)] == [d[0]] + d[1..][j - 1 := (t, d[j].1 + 1)];
      } else {
        assert d + [(t, 1)] == [d[0]] + (d[1..] + [(t, 1)]);
      }
    }
  }

  // ---------------------------------------------------------------------
  // collect_features
  // ---------------------------------------------------------------------

  /** Tallies a list of tokens into a dict, left to right. */
  function TallyTokens(d: Counts, ts: seq<string>): Counts
  {
    if ts == [] then d else Bump(TallyTokens(d, ts[..|ts| - 1]), ts[|ts| - 1])
  }

  function TallyObservation(d: Counts, o: Observation): Counts
  {
    match o
    case Str(s) => TallyTokens(d, Tokens(s))
    case NonString => d
  }

  /** The dict `collect_features` builds from the first observations onward. */
  function Collected(data: seq<Observation>): Counts
  {
    if data == [] then []
    else TallyObservation(Collected(data[..|data| - 1]), data[|data| - 1])
  }

  /** How often token k occurs in one observation split on ','. */
  function TokenCount(o: Observation, k: string): nat
  {
    match o
    case Str(s) => multiset(Tokens(s))[k]
    case NonString => 0
  }

  /** How often token k occurs across all observations. */
  function Occurrences(data: seq<Observation>, k: string): nat
  {
    if data == [] then 0 else Occurrences(data[..|data| - 1], k) + TokenCount(data[|data| - 1], k)
  }

  lemma {:induction false} TallyTokensCounts(d: Counts, ts: seq<string>)
    ensures forall k :: Lookup(TallyTokens(d, ts), k) == Lookup(d, k) + multiset(ts)[k]
    ensures forall k :: k in Keys(TallyTokens(d, ts)) <==> k in Keys(d) || k in ts
    ensures WellFormed(d) ==> WellFormed(TallyTokens(d, ts))
  {
    if ts != [] {
      var init, t := ts[..|ts| - 1], ts[|ts| - 1];
      TallyTokensCounts(d, init);
      assert ts == init + [t];
      assert multiset(ts) == multiset(init) + multiset{t};
      forall k ensures Lookup(TallyTokens(d, ts), k) == Lookup(d, k) + multiset(ts)[k] {
        BumpLookup(TallyTokens(d, init), t, k);
      }
      BumpKeys(TallyTokens(d, init), t);
    }
  }

  lemma LookupAbsent(d: Counts, k: string)
    requires k !in Keys(d)
    ensures Lookup(d, k) == 0
  {
    if d != [] {
      assert Keys(d[1..]) == Keys(d)[1..];
      LookupAbsent(d[1..], k);
    }
  }

  lemma {:induction false} LookupPresent(d: Counts, k: string)
    requires WellFormed(d) && k in Keys(d)
    ensures Lookup(d, k) >= 1
  {
    if d[0].0 != k {
      assert Keys(d[1..]) == Keys(d)[1..];
      assert WellFormed(d[1..]);
      LookupPresent(d[1..], k);
    }
  }

  /** The dict of `collect_features` holds, for each token, the number of
      its occurrences across all string observations, and exactly the
      tokens that occur; non-string observations contribute nothing. */
  lemma {:induction false} CollectedCounts(data: seq<Observation>)
    ensures WellFormed(Collected(data))
    ensures forall k :: Lookup(Collected(data), k) == Occurrences(data, k)
    ensures forall k :: k in Keys(Collected(data)) <==> Occurrences(data, k) > 0
  {
    if data != [] {
      var init, o := data[..|data| - 1], data[|data| - 1];
      CollectedCounts(init);
      match o
      case Str(s) =>
        TallyTokensCounts(Collected(init), Tokens(s));
      case NonString =>
    }
    var c := Collected(data);
    forall k ensures k in Keys(c) <==> Occurrences(data, k) > 0 {
      if k in Keys(c) {
        LookupPresent(c, k);
      } else {
        LookupAbsent(c, k);
      }
    }
  }

  /** The inner loop of `collect_features`: each token's count goes up by
      one where the key already is, or the key is added with count 1. */
  method TallyInPlace(d0: Counts, tokens: seq<string>) returns (d: Counts)
    ensures d == TallyTokens(d0, tokens)
  {
    d := d0;
    for j := 0 to |tokens|
      invariant d == TallyTokens(d0, tokens[..j])
    {
      var t := tokens[j];
      var p := 0;
      while p < |d| && d[p].0 != t
        invariant 0 <= p <= |d|
        invariant forall q :: 0 <= q < p ==> d[q].0 != t
      {
        p := p + 1;
      }
      BumpAt(d, t, p);
      if p < |d| {
        d := d[p := (t, d[p].1 + 1)];
      } else {
        d := d + [(t, 1)];
      }
      assert tokens[..j + 1][..j] == tokens[..j];
    }
    assert tokens[..|tokens|] == tokens;
  }

  /** `collect_features(data, var)`: counts the comma-separated tokens of the
      column, updating the dict in place. */
  method CollectFeatures(data: seq<Observation>) returns (d: Counts)
    ensures d == Collected(data)
    ensures WellFormed(d)
    ensures forall k :: Lookup(d, k) == Occurrences(data, k)
    ensures forall k :: k in Keys(d) <==> Occurrences(data, k) > 0
  {
    d := [];
    for i := 0 to |data|
      invariant d == Collected(data[..i])
    {
      assert data[..i + 1][..i] == data[..i];
      match data[i]
      case Str(s) =>
        d := TallyInPlace(d, Tokens(s));
      case NonString =>
    }
    assert data[..|data|] == data;
    CollectedCounts(data);
  }

  // ---------------------------------------------------------------------
  // get_top_features
  // ---------------------------------------------------------------------

  predicate AscendingByCount(t: Counts)
  {
    forall i, j :: 0 <= i < j < |t| ==> t[i].1 <= t[j].1
  }

  /** The entries of t with count c, in their order in t. */
  function WithCount(t: Counts, c: int): Counts
  {
    if t == [] then []
    else (if t[0].1 == c then [t[0]] else []) + WithCount(t[1..], c)
  }

  /** Inserts x before the first entry whose count is at least x's, so x
      stays ahead of the entries it preceded. */
  function InsertByCount(x: (string, int), t: Counts): (r: Counts)
    requires AscendingByCount(t)
    ensures AscendingByCount(r)
    ensures multiset(r) == multiset(t) + multiset{x}
  {
    if t == [] || x.1 <= t[0].1 then [x] + t
    else
      var rest := InsertByCount(x, t[1..]);
      assert t == [t[0]] + t[1..];
      HeadBelow(t[0], x, t[1..], rest);
      [t[0]] + rest
  }

  lemma HeadBelow(h: (string, int), x: (string, int), u: Counts, rest: Counts)
    requires AscendingByCount([h] + u) && h.1 <= x.1
    requires AscendingByCount(rest) && multiset(rest) == multiset(u) + multiset{x}
    ensures AscendingByCount([h] + rest)
  {
    assert ([h] + u)[0] == h;
    forall j | 0 <= j < |rest| ensures h.1 <= rest[j].1 {
      assert rest[j] in multiset(rest);
      if rest[j] != x {
        assert rest[j] in multiset(u);
        var k :| 0 <= k < |u| && u[k] == rest[j];
        assert ([h] + u)[k + 1] == u[k];
      }
    }
    forall i, j | 0 <= i < j < |[h] + rest| ensures ([h] + rest)[i].1 <= ([h] + rest)[j].1 {
      if i == 0 {
        assert ([h] + rest)[j] == rest[j - 1];
      } else {
        assert ([h] + rest)[i] == rest[i - 1] && ([h] + rest)[j] == rest[j - 1];
      }
    }
  }

  /** Python's `sorted(d.items(), key=count)`: ascending by count, stable. */
  function SortByCount(d: Counts): (r: Counts)
    ensures AscendingByCount(r)
    ensures multiset(r) == multiset(d)
  {
    if d == [] then []
    else
      assert d == [d[0]] + d[1..];
      InsertByCount(d[0], SortByCount(d[1..]))
  }

  lemma {:induction false} WithCountAppend(a: Counts, b: Counts, c: int)
    ensures WithCount(a + b, c) == WithCount(a, c) + WithCount(b, c)
  {
    if a == [] {
      assert a + b == b;
    } else {
      var p := if a[0].1 == c then [a[0]] else [];
      assert a + b == [a[0]] + (a[1..] + b);
      assert a == [a[0]] + a[1..];
      WithCountCons(a[0], a[1..] + b, c);
      WithCountCons(a[0], a[1..], c);
      WithCountAppend(a[1..], b, c);
      assert p + (WithCount(a[1..], c) + WithCount(b, c)) == (p + WithCount(a[1..], c)) + WithCount(b, c);
    }
  }

  lemma WithCountCons(x: (string, int), t: Counts, c: int)
    ensures WithCount([x] + t, c) == (if x.1 == c then [x] else []) + WithCount(t, c)
  {
    assert ([x] + t)[0] == x;
    assert ([x] + t)[1..] == t;
  }

  lemma {:induction false} InsertByCountStable(x: (string, int), t: Counts, c: int)
    requires AscendingByCount(t)
    ensures WithCount(InsertByCount(x, t), c) == WithCount([x] + t, c)
  {
    if t != [] && t[0].1 < x.1 {
      var rest := InsertByCount(x, t[1..]);
      var px := if x.1 == c then [x] else [];
      var p0 := if t[0].1 == c then [t[0]] else [];
      assert p0 + px == px + p0;
      calc {
        WithCount(InsertByCount(x, t), c);
        WithCount([t[0]] + rest, c);
        { WithCountCons(t[0], rest, c); }
        p0 + WithCount(rest, c);
        { InsertByCountStable(x, t[1..], c); }
        p0 + WithCount([x] + t[1..], c);
        { WithCountCons(x, t[1..], c); }
        p0 + (px + WithCount(t[1..], c));
        px + (p0 + WithCount(t[1..], c));
        { WithCountCons(t[0], t[1..], c); assert t == [t[0]] + t[1..]; }
        px + WithCount(t, c);
        { WithCountCons(x, t, c); }
        WithCount([x] + t, c);
      }
    }
  }

  /** The sort is stable: for every count, the entries with that count keep
      their relative order. */
  lemma {:induction false} SortByCountStable(d: Counts, c: int)
    ensures WithCount(SortByCount(d), c) == WithCount(d, c)
  {
    if d != [] {
      SortByCountStable(d[1..], c);
      InsertByCountStable(d[0], SortByCount(d[1..]), c);
      WithCountCons(d[0], SortByCount(d[1..]), c);
      WithCountCons(d[0], d[1..], c);
      assert d == [d[0]] + d[1..];
    }
  }

  /** Python's `s[start:]` for an int start (negative counts from the end). */
  function SliceFrom<T>(s: seq<T>, start: int): (r: seq<T>)
    ensures |r| <= |s| && r == s[|s| - |r|..]
    ensures start >= 0 ==> |r| == if start < |s| then |s| - start else 0
    ensures start < 0 ==> |r| == if -start < |s| then -start else |s|
  {
    var lo := if start < 0 then (if |s| + start < 0 then 0 else |s| + start)
              else (if start < |s| then start else |s|);
    s[lo..]
  }

  /** `get_top_features(features, n)`: the last n entries of the stable
      ascending sort, `[-n:]`. */
  function TopFeatures(features: Counts, n: int): Counts
  {
    SliceFrom(SortByCount(features), -n)
  }

  /** `n = 0` keeps every entry (`[-0:]` is the whole list). */
  lemma TopFeaturesZero(features: Counts)
    ensures TopFeatures(features, 0) == SortByCount(features)
    ensures multiset(TopFeatures(features, 0)) == multiset(features)
  {
  }

  /** How many entries `[-n:]` keeps: min(n, len) for n > 0, everything for
      n = 0, and all but the -n lowest for n < 0. */
  lemma TopFeaturesSize(features: Counts, n: int)
    ensures |TopFeatures(features, n)| ==
      if n > 0 then (if n < |features| then n else |features|)
      else if n == 0 then |features|
      else (if |features| + n < 0 then 0 else |features| + n)
  {
    assert |SortByCount(features)| == |multiset(features)| == |features|;
  }

  /** The kept entries come from the dict, and every entry that is dropped
      has a count no larger than every entry that is kept. */
  lemma TopFeaturesKeepHighest(features: Counts, n: int)
    ensures multiset(TopFeatures(features, n)) <= multiset(features)
    ensures forall x, y :: x in features && x !in TopFeatures(features, n) && y in TopFeatures(features, n) ==> x.1 <= y.1
  {
    var s := SortByCount(features);
    var r := TopFeatures(features, n);
    var lo := |s| - |r|;
    assert r == s[lo..];
    assert s == s[..lo] + r;
    assert multiset(s) == multiset(s[..lo]) + multiset(r);
    forall x, y | x in features && x !in r && y in r ensures x.1 <= y.1 {
      forall k | lo <= k < |s| ensures s[k] != x {
        assert s[k] == r[k - lo];
      }
      SuffixAbove(s, lo, x, y);
    }
  }

  lemma SuffixAbove(s: Counts, lo: nat, x: (string, int), y: (string, int))
    requires AscendingByCount(s) && lo <= |s|
    requires x in multiset(s) && (forall k :: lo <= k < |s| ==> s[k] != x) && y in s[lo..]
    ensures x.1 <= y.1
  {
    assert x in s;
    var i :| 0 <= i < |s| && s[i] == x;
    var j :| 0 <= j < |s[lo..]| && s[lo..][j] == y;
    assert s[lo + j] == y;
  }

  /** The dict built from the kept entries loses nothing: their keys are
      still distinct. */
  lemma TopFeaturesUnique(features: Counts, n: int)
    requires Distinct(Keys(features))
    ensures Distinct(Keys(TopFeatures(features, n)))
  {
    var s := SortByCount(features);
    PermutationKeepsDistinctKeys(features, s);
    var r := TopFeatures(features, n);
    DistinctKeysSuffix(s, |s| - |r|);
    assert r == s[|s| - |r|..];
  }

  lemma DistinctKeysSuffix(s: Counts, lo: nat)
    requires lo <= |s| && Distinct(Keys(s))
    ensures Distinct(Keys(s[lo..]))
  {
    var k := Keys(s[lo..]);
    forall i, j | 0 <= i < j < |k| ensures k[i] != k[j] {
      assert k[i] == Keys(s)[lo + i] && k[j] == Keys(s)[lo + j];
    }
  }

  lemma PermutationKeepsDistinctKeys(a: Counts, b: Counts)
    requires multiset(a) == multiset(b) && Distinct(Keys(a))
    ensures Distinct(Keys(b))
  {
    forall i, j | 0 <= i < j < |b| ensures b[i].0 != b[j].0 {
      if b[i].0 == b[j].0 {
        assert b[i] in multiset(a) && b[j] in multiset(a);
        var p :| 0 <= p < |a| && a[p] == b[i];
        var q :| 0 <= q < |a| && a[q] == b[j];
        if p == q {
          // b[i] == b[j], but then the pair occurs twice in b and only once in a
          assert multiset(b)[b[i]] >= 2 by {
            assert b == b[..i] + [b[i]] + b[i + 1..j] + [b[j]] + b[j + 1..];
          }
          KeyOccursOnce(a, p);
        }
      }
    }
  }

  lemma KeyOccursOnce(a: Counts, p: nat)
    requires p < |a| && Distinct(Keys(a))
    ensures multiset(a)[a[p]] == 1
  {
    assert a == a[..p] + [a[p]] + a[p + 1..];
    assert a[p] !in a[..p] by {
      forall q | 0 <= q < p ensures a[q] != a[p] { assert Keys(a)[q] != Keys(a)[p]; }
    }
    assert a[p] !in a[p + 1..] by {
      forall q | p < q < |a| ensures a[q] != a[p] { assert Keys(a)[q] != Keys(a)[p]; }
    }
    assert multiset(a) == multiset(a[..p]) + multiset{a[p]} + multiset(a[p + 1..]);
  }

  // ---------------------------------------------------------------------
  // make_feature_vector
  // ---------------------------------------------------------------------

  /** `make_feature_vector(obs, top)`: for a string observation, entry idx is
      1 iff the idx-th key of `top` is one of its tokens, else 0; a
      non-string observation gives no vector (the `except` returns None). */
  method MakeFeatureVector(obs: Observation, top: Counts) returns (v: Option<seq<real>>)
    ensures obs.NonString? ==> v == None
    ensures obs.Str? ==> v.Some? && |v.value| == |top|
    ensures obs.Str? ==> forall i :: 0 <= i < |top| ==>
      (v.value[i] == 1.0 || v.value[i] == 0.0) && (v.value[i] == 1.0 <==> top[i].0 in Tokens(obs.s))
  {
    var x := new real[|top|](_ => 0.0);
    match obs
    case NonString =>
      v := None;
    case Str(s) =>
      var tokens := Tokens(s);
      for idx := 0 to |top|
        invariant forall i :: 0 <= i < idx ==> x[i] == (if top[i].0 in tokens then 1.0 else 0.0)
        invariant forall i :: idx <= i < |top| ==> x[i] == 0.0
      {
        if top[idx].0 in tokens {
          x[idx] := 1.0;
        }
      }
      v := Some(x[..]);
  }
}
