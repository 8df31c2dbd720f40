/**
 * `DataWrapper`: the metadata it computes from the training frame (means,
 * stds, categorical cardinalities, vocabularies, dummy labels, scaled
 * bounds) and the bookkeeping `deprocess` does on the categorical name
 * list and the vocabulary tables when several draws per categorical
 * variable are requested.
 */
module Codec {
  import opened Wrappers
  import opened Text
  import opened Dummies
  import opened Bounds

  // ---------------------------------------------------------------------
  // Columns and statistics
  // ---------------------------------------------------------------------

  /** A categorical column of the frame. `Words` is a column whose first
      value is not a Python float (it gets a vocabulary); `Floats` is a
      column of floats, taken as already integer coded. */
  datatype CatColumn = Words(words: seq<string>) | Floats(values: seq<real>)

  function Sum(xs: seq<real>): real
  {
    if xs == [] then 0.0 else Sum(xs[..|xs| - 1]) + xs[|xs| - 1]
  }

  /** `x.mean(0)` of one column. */
  function Mean(xs: seq<real>): real
    requires |xs| > 0
  {
    Sum(xs) / (|xs| as real)
  }

  /** Sums of values within `[lo, hi]` lie within `|xs|` times those bounds. */
  lemma {:induction false} SumWithin(xs: seq<real>, lo: real, hi: real)
    requires forall i :: 0 <= i < |xs| ==> lo <= xs[i] <= hi
    ensures (|xs| as real) * lo <= Sum(xs) <= (|xs| as real) * hi
  {
    if xs != [] {
      SumWithin(xs[..|xs| - 1], lo, hi);
      assert ((|xs| - 1) as real) * lo + lo == (|xs| as real) * lo;
      assert ((|xs| - 1) as real) * hi + hi == (|xs| as real) * hi;
    }
  }

  /** The mean of a column lies between its smallest and largest values. */
  lemma MeanWithin(xs: seq<real>, lo: real, hi: real)
    requires |xs| > 0 && forall i :: 0 <= i < |xs| ==> lo <= xs[i] <= hi
    ensures lo <= Mean(xs) <= hi
  {
    SumWithin(xs, lo, hi);
    var k := |xs| as real;
    assert (Mean(xs) - lo) * k >= 0.0;
    assert (hi - Mean(xs)) * k >= 0.0;
  }

  function SquaredDeviations(xs: seq<real>, m: real): (r: real)
    ensures r >= 0.0
  {
    if xs == [] then 0.0
    else
      var d := xs[|xs| - 1] - m;
      SquareNonNegative(d);
      SquaredDeviations(xs[..|xs| - 1], m) + d * d
  }

  lemma SquareNonNegative(d: real)
    ensures d * d >= 0.0
  {
  }

  /** The unbiased variance that `x.std(0)` takes the square root of. */
  function SampleVariance(xs: seq<real>): (r: real)
    requires |xs| >= 2
    ensures r >= 0.0
  {
    SquaredDeviations(xs, Mean(xs)) / ((|xs| - 1) as real)
  }

  /** `sd` holds the sample standard deviation of every column: the
      non-negative square root of its unbiased variance. */
  predicate SampleStds(cols: seq<seq<real>>, sd: seq<real>)
  {
    |cols| == |sd| &&
    forall i :: 0 <= i < |cols| ==>
      |cols[i]| >= 2 && sd[i] >= 0.0 && sd[i] * sd[i] == SampleVariance(cols[i])
  }

  function Means(cols: seq<seq<real>>): (r: seq<real>)
    requires forall i :: 0 <= i < |cols| ==> |cols[i]| > 0
    ensures |r| == |cols| && forall i :: 0 <= i < |cols| ==> r[i] == Mean(cols[i])
  {
    seq(|cols|, i requires 0 <= i < |cols| => Mean(cols[i]))
  }

  /** `x.std(0) + 1e-5`: every std the wrapper keeps is positive. */
  function Stds(sd: seq<real>): (r: seq<real>)
    requires forall i :: 0 <= i < |sd| ==> sd[i] >= 0.0
    ensures |r| == |sd| && forall i :: 0 <= i < |r| ==> r[i] >= StdFloor && r[i] > 0.0
  {
    seq(|sd|, i requires 0 <= i < |sd| => sd[i] + StdFloor)
  }

  // ---------------------------------------------------------------------
  // Vocabularies
  // ---------------------------------------------------------------------

  /** `{feature: idx for idx, feature in enumerate(labels)}`. */
  function WordsToInt(labels: seq<string>): map<string, int>
    requires Distinct(labels)
  {
    map i | 0 <= i < |labels| :: labels[i] := i
  }

  /** `{idx: feature for idx, feature in enumerate(labels)}`. */
  function IntToWords(labels: seq<string>): map<int, string>
  {
    map i | 0 <= i < |labels| :: labels[i]
  }

  /** Two tables that undo each other. */
  predicate Inverse(w2i: map<string, int>, i2w: map<int, string>)
  {
    && (forall w :: w in w2i ==> w2i[w] in i2w && i2w[w2i[w]] == w)
    && (forall i :: i in i2w ==> i2w[i] in w2i && w2i[i2w[i]] == i)
  }

  /** The vocabulary of a word column: its dummy labels in column order. */
  function Vocabulary(words: seq<string>): (labels: seq<string>)
    ensures Distinct(labels)
  {
    var labels := DummyLabels(words);
    AscendingDistinct(labels);
    labels
  }

  /** The keys of `words_to_int[v]` are the labels, each mapped to its
      position. */
  lemma WordsToIntEntries(labels: seq<string>)
    requires Distinct(labels)
    ensures forall w :: w in WordsToInt(labels) <==> w in labels
    ensures forall i :: 0 <= i < |labels| ==> WordsToInt(labels)[labels[i]] == i
  {
    forall w | w in labels ensures w in WordsToInt(labels) {
      var i :| 0 <= i < |labels| && labels[i] == w;
    }
  }

  /** `words_to_int[v]` and `int_to_words[v]` are mutually inverse; they
      cover exactly the distinct words of the column and the codes
      0..k-1, where k is the number of distinct words. */
  lemma VocabularyBijection(words: seq<string>)
    ensures Inverse(WordsToInt(Vocabulary(words)), IntToWords(Vocabulary(words)))
    ensures forall w :: w in WordsToInt(Vocabulary(words)) <==> w in words
    ensures forall i :: i in IntToWords(Vocabulary(words)) <==> 0 <= i < |Vocabulary(words)|
    ensures |Vocabulary(words)| == |set w | w in words|
  {
    VocabularyInverse(words);
    DummyLabelsCount(words);
  }

  lemma VocabularyInverse(words: seq<string>)
    ensures Inverse(WordsToInt(Vocabulary(words)), IntToWords(Vocabulary(words)))
  {
    var labels := Vocabulary(words);
    var w2i, i2w := WordsToInt(labels), IntToWords(labels);
    WordsToIntEntries(labels);
    forall w | w in w2i ensures w2i[w] in i2w && i2w[w2i[w]] == w {
      var i :| 0 <= i < |labels| && labels[i] == w;
    }
  }

  /** `df[v].map(words_to_int[v])`: every word replaced by its code. */
  function Encode(words: seq<string>): (codes: seq<real>)
    ensures |codes| == |words|
  {
    var w2i := WordsToInt(Vocabulary(words));
    WordsToIntEntries(Vocabulary(words));
    seq(|words|, r requires 0 <= r < |words| => w2i[words[r]] as real)
  }

  /** Every code is the position of its word among the labels. */
  lemma EncodeInRange(words: seq<string>, y: real)
    requires y in Encode(words)
    ensures y in Range(|Vocabulary(words)|)
  {
    var labels := Vocabulary(words);
    WordsToIntEntries(labels);
    var r :| 0 <= r < |words| && Encode(words)[r] == y;
    assert words[r] in labels;
    var i :| 0 <= i < |labels| && labels[i] == words[r];
    assert Range(|labels|)[i] == y;
  }

  /** Every position among the labels is the code of some row. */
  lemma EncodeCovers(words: seq<string>, i: nat)
    requires i < |Vocabulary(words)|
    ensures (i as real) in Encode(words)
  {
    var labels := Vocabulary(words);
    WordsToIntEntries(labels);
    assert labels[i] in words;
    var r :| 0 <= r < |words| && words[r] == labels[i];
    assert Encode(words)[r] == i as real;
  }

  /** The second element of `cat_labels[i]`: the dummy columns of the coded
      column. */
  function CatLabels(c: CatColumn): seq<real>
  {
    match c
    case Words(words) => DummyCodes(Encode(words))
    case Floats(values) => DummyCodes(values)
  }

  function Rows(c: CatColumn): nat
  {
    match c
    case Words(words) => |words|
    case Floats(values) => |values|
  }

  /** `df[v].nunique()`. */
  function CatDim(c: CatColumn): nat
  {
    match c
    case Words(words) => |set w | w in words|
    case Floats(values) => |set x | x in values|
  }

  /** For a word column the dummy labels are exactly the codes 0..k-1 in
      order, where k is the number of distinct words. */
  lemma WordLabelsAreCodes(words: seq<string>)
    ensures CatLabels(Words(words)) == Range(CatDim(Words(words)))
  {
    var k := |Vocabulary(words)|;
    var codes := Encode(words);
    forall y ensures y in codes <==> y in Range(k) {
      if y in codes {
        EncodeInRange(words, y);
      }
      if y in Range(k) {
        var i :| 0 <= i < k && Range(k)[i] == y;
        EncodeCovers(words, i);
      }
    }
    DummyCodesOfRange(codes, k);
    VocabularyBijection(words);
  }

  /** A column with a row has at least one category. */
  lemma CatDimPositive(c: CatColumn)
    requires Rows(c) > 0
    ensures CatDim(c) >= 1
  {
    match c
    case Words(words) =>
      var distinct := set w | w in words;
      assert words[0] in distinct;
      assert distinct != {};
    case Floats(values) =>
      var distinct := set x | x in values;
      assert values[0] in distinct;
      assert distinct != {};
  }

  /** `cat_dims[i]` is the number of dummy columns of variable i, so that
      splitting the generated block by `cat_dims` lines up with `cat_labels`. */
  lemma CatDimMatchesLabels(c: CatColumn)
    ensures CatDim(c) == |CatLabels(c)|
  {
    match c
    case Words(words) =>
      WordLabelsAreCodes(words);
    case Floats(values) =>
      DummyCodesCount(values);
  }

  // ---------------------------------------------------------------------
  // The vocabulary tables of all categorical variables
  // ---------------------------------------------------------------------

  datatype Tables = Tables(wordsToInt: map<string, map<string, int>>, intToWords: map<string, map<int, string>>)

  /** Both tables name the same variables, and each variable's pair is a
      bijection. */
  predicate TablesValid(t: Tables)
  {
    t.wordsToInt.Keys == t.intToWords.Keys &&
    forall v :: v in t.wordsToInt ==> Inverse(t.wordsToInt[v], t.intToWords[v])
  }

  /** The tables `__init__` builds, one categorical variable after another;
      a float column adds nothing. */
  function BuildTables(vars: seq<string>, cols: seq<CatColumn>): (t: Tables)
    requires |vars| == |cols|
    ensures TablesValid(t)
    ensures forall v :: v in t.wordsToInt ==> v in vars
  {
    if vars == [] then Tables(map[], map[])
    else
      var init := BuildTables(vars[..|vars| - 1], cols[..|cols| - 1]);
      assert forall v :: v in vars[..|vars| - 1] ==> v in vars;
      AddVocabulary(init, vars[|vars| - 1], cols[|cols| - 1])
  }

  lemma BuildTablesSnoc(vars: seq<string>, cols: seq<CatColumn>, k: nat)
    requires |vars| == |cols| && k < |vars|
    ensures BuildTables(vars[..k + 1], cols[..k + 1]) ==
      AddVocabulary(BuildTables(vars[..k], cols[..k]), vars[k], cols[k])
  {
    assert vars[..k + 1][..k] == vars[..k] && cols[..k + 1][..k] == cols[..k];
  }

  /** One iteration of the loop of `__init__`: a word column gets its
      variable a fresh pair of tables. */
  function AddVocabulary(t: Tables, v: string, c: CatColumn): (r: Tables)
    requires TablesValid(t)
    ensures TablesValid(r)
    ensures forall k :: k in r.wordsToInt <==> k in t.wordsToInt || (k == v && c.Words?)
    ensures forall k :: k in t.wordsToInt && k != v ==>
      r.wordsToInt[k] == t.wordsToInt[k] && r.intToWords[k] == t.intToWords[k]
  {
    match c
    case Floats(_) => t
    case Words(words) =>
      var labels := Vocabulary(words);
      VocabularyInverse(words);
      AddInverse(t, v, WordsToInt(labels), IntToWords(labels));
      Tables(t.wordsToInt[v := WordsToInt(labels)], t.intToWords[v := IntToWords(labels)])
  }

  lemma AddVocabularyWords(t: Tables, v: string, words: seq<string>)
    requires TablesValid(t)
    ensures AddVocabulary(t, v, Words(words)) ==
      Tables(t.wordsToInt[v := WordsToInt(Vocabulary(words))], t.intToWords[v := IntToWords(Vocabulary(words))])
  {
  }

  lemma AddInverse(t: Tables, v: string, w2i: map<string, int>, i2w: map<int, string>)
    requires TablesValid(t) && Inverse(w2i, i2w)
    ensures TablesValid(Tables(t.wordsToInt[v := w2i], t.intToWords[v := i2w]))
  {
  }

  /** With distinct variable names, a variable has a vocabulary iff its
      column holds words, and then it is that column's vocabulary. */
  lemma {:induction false} BuildTablesLookup(vars: seq<string>, cols: seq<CatColumn>, i: nat)
    requires |vars| == |cols| && Distinct(vars) && i < |vars|
    ensures vars[i] in BuildTables(vars, cols).wordsToInt <==> cols[i].Words?
    ensures cols[i].Words? ==>
      BuildTables(vars, cols).wordsToInt[vars[i]] == WordsToInt(Vocabulary(cols[i].words)) &&
      BuildTables(vars, cols).intToWords[vars[i]] == IntToWords(Vocabulary(cols[i].words))
  {
    var m := |vars| - 1;
    var init := BuildTables(vars[..m], cols[..m]);
    assert BuildTables(vars, cols) == AddVocabulary(init, vars[m], cols[m]);
    if i < m {
      assert Distinct(vars[..m]);
      BuildTablesLookup(vars[..m], cols[..m], i);
      assert vars[..m][i] == vars[i] != vars[m];
    } else {
      assert vars[m] !in vars[..m];
      assert vars[m] !in init.wordsToInt;
      if cols[m].Words? {
        AddVocabularyWords(init, vars[m], cols[m].words);
      }
    }
  }

  // ---------------------------------------------------------------------
  // deprocess: filler names
  // ---------------------------------------------------------------------

  /** Columns drawn per categorical variable. */
  function Draws(n: int): nat
  {
    if n > 1 then n else 1
  }

  /** `[var + str(i) for i in range(1, n)]`. */
  function Fillers(v: string, n: int): (fs: seq<string>)
    ensures |fs| == Draws(n) - 1
    ensures forall i :: 0 <= i < |fs| ==> fs[i] == v + Decimal(i + 1)
  {
    seq(Draws(n) - 1, i requires 0 <= i => v + Decimal(i + 1))
  }

  /** A filler name is strictly longer than its variable, so never equal. */
  lemma FillerIsNotVariable(v: string, n: int)
    ensures v !in Fillers(v, n)
    ensures forall f :: f in Fillers(v, n) ==> |f| > |v|
  {
  }

  /** The fillers of one variable are pairwise distinct. */
  lemma FillersDistinct(v: string, n: int)
    ensures Distinct(Fillers(v, n))
  {
    var fs := Fillers(v, n);
    forall i, j | 0 <= i < j < |fs| ensures fs[i] != fs[j] {
      if fs[i] == fs[j] {
        assert Decimal(i + 1) == fs[i][|v|..] == fs[j][|v|..] == Decimal(j + 1);
        DecimalInjective(i + 1, j + 1);
      }
    }
  }

  /** The categorical name list after `deprocess(…, n)`: every name followed
      by its fillers. */
  function ExpandNames(cats: seq<string>, n: int): seq<string>
  {
    if cats == [] then []
    else ExpandNames(cats[..|cats| - 1], n) + [cats[|cats| - 1]] + Fillers(cats[|cats| - 1], n)
  }

  /** The expanded list is `Draws(n)` times as long. */
  lemma {:induction false} ExpandNamesLength(cats: seq<string>, n: int)
    ensures |ExpandNames(cats, n)| == |cats| * Draws(n)
  {
    if cats != [] {
      ExpandNamesLength(cats[..|cats| - 1], n);
      assert (|cats| - 1) * Draws(n) + Draws(n) == |cats| * Draws(n);
    }
  }

  /** One draw (or fewer) leaves the list as it is. */
  lemma {:induction false} ExpandNamesOneDraw(cats: seq<string>, n: int)
    requires n <= 1
    ensures ExpandNames(cats, n) == cats
  {
    if cats != [] {
      ExpandNamesOneDraw(cats[..|cats| - 1], n);
      assert cats == cats[..|cats| - 1] + [cats[|cats| - 1]];
    }
  }

  /** The `i`-th name of a variable's block: the variable, then its fillers. */
  function BlockName(v: string, i: nat): string
  {
    if i == 0 then v else v + Decimal(i)
  }

  /** The names one variable expands to. */
  function Block(v: string, n: int): (r: seq<string>)
    ensures |r| == Draws(n)
    ensures forall i :: 0 <= i < |r| ==> r[i] == BlockName(v, i)
  {
    [v] + Fillers(v, n)
  }

  lemma ExpandNamesSnoc(cats: seq<string>, n: int)
    requires cats != []
    ensures ExpandNames(cats, n) == ExpandNames(cats[..|cats| - 1], n) + Block(cats[|cats| - 1], n)
  {
  }

  /** Expanding a prefix of the names gives a prefix of the expansion. */
  lemma {:induction false} ExpandNamesPrefix(cats: seq<string>, n: int, j: nat)
    requires j <= |cats|
    ensures ExpandNames(cats[..j], n) <= ExpandNames(cats, n)
    decreases |cats|
  {
    if j < |cats| {
      var m := |cats| - 1;
      ExpandNamesPrefix(cats[..m], n, j);
      assert cats[..m][..j] == cats[..j];
      ExpandNamesSnoc(cats, n);
    } else {
      assert cats[..j] == cats;
    }
  }

  /** Each name of the original list comes first in its own block of
      `Draws(n)` names, followed by its fillers. */
  lemma ExpandNamesBlock(cats: seq<string>, n: int, k: nat, i: nat)
    requires k < |cats| && i < Draws(n)
    ensures k * Draws(n) + i < |ExpandNames(cats, n)|
    ensures ExpandNames(cats, n)[k * Draws(n) + i] == BlockName(cats[k], i)
  {
    var pre := ExpandNames(cats[..k], n);
    var upto := ExpandNames(cats[..k + 1], n);
    ExpandNamesPrefix(cats, n, k + 1);
    assert cats[..k + 1][..k] == cats[..k];
    assert cats[..k + 1][k] == cats[k];
    ExpandNamesSnoc(cats[..k + 1], n);
    ExpandNamesLength(cats[..k], n);
    assert upto == pre + Block(cats[k], n);
    var p := |pre| + i;
    assert p < |upto| && upto[p] == BlockName(cats[k], i);
    assert ExpandNames(cats, n)[p] == upto[p];
    assert p == k * Draws(n) + i;
  }

  lemma MulLe(a: nat, b: nat, c: nat)
    requires a <= b
    ensures a * c <= b * c
  {
  }

  // ---------------------------------------------------------------------
  // deprocess: filler vocabularies
  // ---------------------------------------------------------------------

  /** Aliasing one more filler is one more map update. */
  lemma MapAddSnoc<K, V>(m: map<K, V>, fs: seq<K>, f: K, c: V)
    ensures m + (map x | x in fs + [f] :: c) == (m + (map x | x in fs :: c))[f := c]
  {
  }

  /** The inner loop: every filler gets the variable's two tables. */
  function AliasFillers(t: Tables, v: string, fs: seq<string>): Tables
    requires v in t.wordsToInt && v in t.intToWords
  {
    Tables(t.wordsToInt + (map f | f in fs :: t.wordsToInt[v]),
           t.intToWords + (map f | f in fs :: t.intToWords[v]))
  }

  /** Aliasing the fillers one by one: the variable itself keeps its
      tables, and one more filler is one more update of each map. */
  lemma AliasFillersSnoc(t: Tables, v: string, fs: seq<string>, j: nat)
    requires v in t.wordsToInt && v in t.intToWords && v !in fs && j < |fs|
    ensures var a := AliasFillers(t, v, fs[..j]);
      v in a.wordsToInt && v in a.intToWords &&
      a.wordsToInt[v] == t.wordsToInt[v] && a.intToWords[v] == t.intToWords[v] &&
      AliasFillers(t, v, fs[..j + 1]) == Tables(a.wordsToInt[fs[j] := a.wordsToInt[v]], a.intToWords[fs[j] := a.intToWords[v]])
  {
    assert fs[..j + 1] == fs[..j] + [fs[j]];
    assert v !in fs[..j];
    MapAddSnoc(t.wordsToInt, fs[..j], fs[j], t.wordsToInt[v]);
    MapAddSnoc(t.intToWords, fs[..j], fs[j], t.intToWords[v]);
  }

  /** One iteration of the outer loop: aliasing happens only for a variable
      that has a vocabulary at that moment. */
  function AliasVariable(t: Tables, v: string, n: int): (r: Tables)
    requires TablesValid(t)
    ensures TablesValid(r)
  {
    if v in t.wordsToInt then AliasFillers(t, v, Fillers(v, n)) else t
  }

  /** The tables after the whole outer loop of `deprocess`. */
  function AliasAll(t: Tables, cats: seq<string>, n: int): (r: Tables)
    requires TablesValid(t)
    ensures TablesValid(r)
  {
    if cats == [] then t
    else AliasVariable(AliasAll(t, cats[..|cats| - 1], n), cats[|cats| - 1], n)
  }

  /** Every filler name of every variable. */
  function FillerNames(cats: seq<string>, n: int): seq<string>
  {
    if cats == [] then []
    else FillerNames(cats[..|cats| - 1], n) + Fillers(cats[|cats| - 1], n)
  }

  /** Nothing but filler names is touched: every other entry of both tables
      is as before. */
  lemma {:induction false} AliasAllElsewhere(t: Tables, cats: seq<string>, n: int, key: string)
    requires TablesValid(t) && key !in FillerNames(cats, n)
    ensures key in AliasAll(t, cats, n).wordsToInt <==> key in t.wordsToInt
    ensures key in t.wordsToInt ==>
      AliasAll(t, cats, n).wordsToInt[key] == t.wordsToInt[key] &&
      AliasAll(t, cats, n).intToWords[key] == t.intToWords[key]
  {
    if cats != [] {
      AliasAllElsewhere(t, cats[..|cats| - 1], n, key);
    }
  }

  lemma {:induction false} FillerNamesListed(cats: seq<string>, n: int)
    ensures forall f :: f in FillerNames(cats, n) ==> f in ExpandNames(cats, n)
    ensures forall v :: v in cats ==> v in ExpandNames(cats, n)
  {
    if cats != [] {
      FillerNamesListed(cats[..|cats| - 1], n);
      forall v | v in cats ensures v in ExpandNames(cats, n) {
        if v != cats[|cats| - 1] {
          assert v in cats[..|cats| - 1];
        }
      }
    }
  }

  /** When the expanded list has no repeated name, each filler of a
      variable that had a vocabulary ends up with exactly that variable's
      two tables. */
  lemma {:induction false} AliasAllCopies(t: Tables, cats: seq<string>, n: int, v: string, f: string)
    requires TablesValid(t) && Distinct(ExpandNames(cats, n))
    requires v in cats && f in Fillers(v, n) && v in t.wordsToInt
    ensures f in AliasAll(t, cats, n).wordsToInt
    ensures AliasAll(t, cats, n).wordsToInt[f] == t.wordsToInt[v]
    ensures AliasAll(t, cats, n).intToWords[f] == t.intToWords[v]
  {
    var m := |cats| - 1;
    var init, last := cats[..m], cats[m];
    var e := ExpandNames(init, n);
    var block := [last] + Fillers(last, n);
    assert ExpandNames(cats, n) == e + block;
    DistinctAppend(e, block);
    FillerNamesListed(init, n);
    var r := AliasAll(t, init, n);
    if v == last {
      assert last !in FillerNames(init, n);
      AliasAllElsewhere(t, init, n, last);
    } else {
      assert v in init;
      AliasAllCopies(t, init, n, v, f);
      assert f in FillerNames(init, n) by {
        FillerInNames(init, n, v, f);
      }
      assert f !in Fillers(last, n) by {
        assert f in e;
      }
    }
  }

  /** The two parts of a list without repetitions are without repetitions
      and share no element. */
  lemma DistinctAppend<T>(a: seq<T>, b: seq<T>)
    requires Distinct(a + b)
    ensures Distinct(a) && Distinct(b)
    ensures forall x :: x in a ==> x !in b
  {
    forall i, j | 0 <= i < |a| && 0 <= j < |b| ensures a[i] != b[j] {
      assert (a + b)[i] == a[i] && (a + b)[|a| + j] == b[j];
    }
    forall i, j | 0 <= i < j < |a| ensures a[i] != a[j] {
      assert (a + b)[i] == a[i] && (a + b)[j] == a[j];
    }
    forall i, j | 0 <= i < j < |b| ensures b[i] != b[j] {
      assert (a + b)[|a| + i] == b[i] && (a + b)[|a| + j] == b[j];
    }
  }

  lemma {:induction false} FillerInNames(cats: seq<string>, n: int, v: string, f: string)
    requires v in cats && f in Fillers(v, n)
    ensures f in FillerNames(cats, n)
  {
    if v != cats[|cats| - 1] {
      assert v in cats[..|cats| - 1];
      FillerInNames(cats[..|cats| - 1], n, v, f);
    }
  }

  // ---------------------------------------------------------------------
  // deprocess: the frame's columns
  // ---------------------------------------------------------------------

  datatype DeprocessError =
    | InvalidDrawCount     // sampling n of k categories without replacement needs 1 <= n <= k
    | FillerShapeMismatch  // the zero block of a float-coded variable cannot be concatenated
    | MissingColumn        // the final mapping loop indexes a column the frame lacks (KeyError)

  /** Shape of the zero block appended to the single draw of a float-coded
      variable, as written: `n - 1` rows `[0]` repeated once per generated
      row, i.e. `(n-1)*rows` rows of width 1; an empty list makes a
      one-dimensional empty tensor, which concatenation skips (`None`). */
  function ZeroFillerShape(n: int, rows: nat): Option<(nat, nat)>
  {
    var count := if n > 1 then n - 1 else 0;
    if count * rows == 0 then None else Some((count * rows, 1))
  }

  /** The block concatenates with the `(rows, 1)` draw along the last
      dimension only if its row count is `rows`; that fails from three
      draws on. */
  lemma ZeroFillerMisaligned(n: int, rows: nat)
    requires n >= 3 && rows >= 1
    ensures ZeroFillerShape(n, rows).Some? && ZeroFillerShape(n, rows).value.0 != rows
  {
    assert (n - 1) * rows >= 2 * rows by { MulLe(2, n - 1, rows); }
  }

  /** The block as evidently intended: one row per generated row and one
      zero column per filler. */
  function ZeroFillerBlock(n: int, rows: nat): (shape: (nat, nat))
    ensures shape.0 == rows && 1 + shape.1 == Draws(n)
  {
    (rows, Draws(n) - 1)
  }

  /** Sampling as evidently intended: the zero block always lines up with
      the draw, so only a vocabulary variable asked for no draws or for more
      categories than it has fails. */
  function IntendedDrawError(vocabulary: bool, dim: nat, n: int, rows: nat): (e: Option<DeprocessError>)
    ensures e.Some? <==> vocabulary && (n < 1 || n > dim)
    ensures vocabulary ==> e == DrawError(vocabulary, dim, n, rows)
  {
    if vocabulary then DrawError(vocabulary, dim, n, rows) else None
  }

  /** Columns the sampled blocks contribute with the intended zero block:
      the draws of a vocabulary variable, or the single draw beside the
      `(rows, n-1)` zeros. */
  function IntendedWidth(blocks: seq<(bool, nat)>, n: int, rows: nat): nat
  {
    if blocks == [] then 0
    else
      var last := blocks[|blocks| - 1];
      IntendedWidth(blocks[..|blocks| - 1], n, rows) + (if last.0 then Draws(n) else 1 + ZeroFillerBlock(n, rows).1)
  }

  lemma {:induction false} IntendedWidthAll(blocks: seq<(bool, nat)>, n: int, rows: nat)
    ensures IntendedWidth(blocks, n, rows) == |blocks| * Draws(n)
  {
    if blocks != [] {
      IntendedWidthAll(blocks[..|blocks| - 1], n, rows);
      assert (|blocks| - 1) * Draws(n) + Draws(n) == |blocks| * Draws(n);
    }
  }

  /** With the intended block every categorical variable, float-coded or
      not and for any number of rows, yields exactly one column per name of
      the expanded list. */
  lemma ZeroFillerBlockFits(blocks: seq<(bool, nat)>, cats: seq<string>, n: int, rows: nat)
    requires |blocks| == |cats|
    ensures IntendedWidth(blocks, n, rows) == |ExpandNames(cats, n)|
  {
    IntendedWidthAll(blocks, n, rows);
    ExpandNamesLength(cats, n);
  }

  /** What sampling one categorical block does before any renaming: a
      vocabulary variable draws n of its `dim` categories without
      replacement; a float-coded one draws one and appends the zero block. */
  function DrawError(vocabulary: bool, dim: nat, n: int, rows: nat): Option<DeprocessError>
  {
    if vocabulary then
      if n < 1 || n > dim then Some(InvalidDrawCount) else None
    else if ZeroFillerShape(n, rows).Some? && ZeroFillerShape(n, rows).value.0 != rows then
      Some(FillerShapeMismatch)
    else None
  }

  /** The sampling loop stops at the first variable that fails. */
  function FirstDrawError(blocks: seq<(bool, nat)>, n: int, rows: nat): (e: Option<DeprocessError>)
    ensures e.None? <==> forall i :: 0 <= i < |blocks| ==> DrawError(blocks[i].0, blocks[i].1, n, rows).None?
  {
    if blocks == [] then None
    else
      var e := DrawError(blocks[0].0, blocks[0].1, n, rows);
      if e.Some? then e
      else
        var rest := FirstDrawError(blocks[1..], n, rows);
        assert forall i :: 1 <= i < |blocks| ==> blocks[i] == blocks[1..][i - 1];
        rest
  }

  /** Without float-coded variables the shape error never happens, and
      with between 1 and `min(cat_dims)` draws nothing fails. */
  lemma DrawsWithinVocabularies(blocks: seq<(bool, nat)>, n: int, rows: nat)
    requires forall i :: 0 <= i < |blocks| ==> blocks[i].0 && 1 <= n <= blocks[i].1
    ensures FirstDrawError(blocks, n, rows).None?
  {
  }

  /** With generated rows the as-written zero block exists exactly from two
      draws on, and lines up with the draw exactly at two. */
  lemma ZeroFillerRows(n: int, rows: nat)
    ensures rows > 0 ==> (ZeroFillerShape(n, rows).None? <==> n <= 1)
    ensures rows > 0 && ZeroFillerShape(n, rows).Some? ==> (ZeroFillerShape(n, rows).value.0 == rows <==> n == 2)
  {
    if n > 1 {
      MulLe(1, n - 1, rows);
    }
    if n >= 3 {
      MulLe(2, n - 1, rows);
    }
  }

  /** Columns one sampled block adds to `torch.cat(new_categorical, -1)`:
      n draws for a vocabulary variable; for a float-coded one the single
      draw, plus the zero block's column unless that block is empty. A
      block that samples without error has `Draws(n)` columns, except a
      float-coded block with no rows, which has one. */
  function BlockWidth(vocabulary: bool, n: int, rows: nat): (w: nat)
    ensures w <= Draws(n)
    ensures vocabulary ==> w == Draws(n)
    ensures !vocabulary && DrawError(false, 0, n, rows).None? ==> w == if rows > 0 then Draws(n) else 1
  {
    if vocabulary then Draws(n)
    else
      match ZeroFillerShape(n, rows)
      case None => 1
      case Some(shape) =>
        ZeroFillerRows(n, rows);
        1 + shape.1
  }

  /** Width of `torch.cat(new_categorical, -1)`: with generated rows and no
      sampling error, `Draws(n)` columns per categorical variable. */
  function CatWidth(blocks: seq<(bool, nat)>, n: int, rows: nat): (w: nat)
    ensures w <= |blocks| * Draws(n)
    ensures rows > 0 && FirstDrawError(blocks, n, rows).None? ==> w == |blocks| * Draws(n)
  {
    if blocks == [] then 0
    else
      var init, last := blocks[..|blocks| - 1], blocks[|blocks| - 1];
      assert forall i :: 0 <= i < |init| ==> init[i] == blocks[i];
      var w := CatWidth(init, n, rows) + BlockWidth(last.0, n, rows);
      assert (|blocks| - 1) * Draws(n) + Draws(n) == |blocks| * Draws(n);
      assert DrawError(last.0, last.1, n, rows).None? && !last.0 ==> DrawError(false, 0, n, rows).None?;
      w
  }

  /** With no generated rows the zero block is an empty tensor that the
      concatenation skips, so a float-coded variable has one column
      whatever the number of draws: from two draws on the categorical part
      is narrower than the expanded name list. */
  lemma {:induction false} ZeroRowsNarrowFloatBlock(blocks: seq<(bool, nat)>, n: int, k: nat)
    requires n >= 2 && k < |blocks| && !blocks[k].0
    ensures CatWidth(blocks, n, 0) < |blocks| * Draws(n)
  {
    var init := blocks[..|blocks| - 1];
    assert (|blocks| - 1) * Draws(n) + Draws(n) == |blocks| * Draws(n);
    if k < |blocks| - 1 {
      assert init[k] == blocks[k];
      ZeroRowsNarrowFloatBlock(init, n, k);
    }
  }

  /** `dict(zip(names, columns))` keeps the names that have a column. */
  function ZipKeys(names: seq<string>, width: nat): seq<string>
  {
    if |names| <= width then names else names[..width]
  }

  /** The output of a pure, non-mutating `deprocess` naming step: the
      expanded categorical names and tables derived from the construction
      time list, computed afresh on every call. */
  function OutputSchema(cats: seq<string>, t: Tables, n: int): (r: (seq<string>, Tables))
    requires TablesValid(t)
  {
    (ExpandNames(cats, n), AliasAll(t, cats, n))
  }

  /** A fresh schema labels every generated categorical column: it has
      `Draws(n)` names per categorical variable, and every variable with a
      vocabulary, filler or not, is among them. */
  lemma OutputSchemaLabelsAllColumns(cats: seq<string>, t: Tables, n: int)
    requires TablesValid(t) && t.wordsToInt.Keys <= set v | v in cats
    ensures |OutputSchema(cats, t, n).0| == |cats| * Draws(n)
    ensures forall v :: v in OutputSchema(cats, t, n).1.wordsToInt ==> v in OutputSchema(cats, t, n).0
  {
    ExpandNamesLength(cats, n);
    FillerNamesListed(cats, n);
    forall v | v in AliasAll(t, cats, n).wordsToInt ensures v in ExpandNames(cats, n) {
      if v !in FillerNames(cats, n) {
        AliasAllElsewhere(t, cats, n, v);
      }
    }
  }

  /** The mutation as written: a second `deprocess` with more than one draw
      expands the already expanded list, so it holds `Draws(n)` times more
      names than there are categorical columns to label. */
  lemma SecondExpansionOverflows(cats: seq<string>, n: int)
    requires cats != [] && n > 1
    ensures |ExpandNames(ExpandNames(cats, n), n)| == |cats| * n * n
    ensures |ExpandNames(ExpandNames(cats, n), n)| > |cats| * n
  {
    ExpandNamesLength(cats, n);
    ExpandNamesLength(ExpandNames(cats, n), n);
    MulGrows(|cats| * n, n);
  }

  lemma MulGrows(a: nat, n: int)
    requires a > 0 && n > 1
    ensures a * n > a
  {
  }

  /** The second call on such a wrapper, for any word variable v: its
      filler v + "1" has a vocabulary by then, so the filler of that filler,
      v + "1" + "1", gets one too; but the frame has only two categorical
      columns and keeps the names v and v + "1", so the final mapping loop
      asks for a column that is not there. */
  lemma SecondCallMissesColumn(t: Tables, v: string)
    requires TablesValid(t) && v in t.wordsToInt
    ensures var ff := v + Decimal(1) + Decimal(1);
      var once := AliasAll(t, [v], 2);
      && ff in AliasAll(once, ExpandNames([v], 2), 2).wordsToInt
      && ff !in ZipKeys(ExpandNames(ExpandNames([v], 2), 2), 2)
  {
    var f := v + Decimal(1);
    SecondExpansionNames(v);
    AliasFirstFiller(t, v);
    AliasSecondFiller(AliasAll(t, [v], 2), v, f);
  }

  /** Two expansions with two draws of a single name v, and the names the
      two-column frame keeps. */
  lemma SecondExpansionNames(v: string)
    ensures var f := v + Decimal(1);
      var ff := f + Decimal(1);
      && ExpandNames([v], 2) == [v, f]
      && ExpandNames(ExpandNames([v], 2), 2) == [v, f, f, ff]
      && ZipKeys(ExpandNames(ExpandNames([v], 2), 2), 2) == [v, f]
      && ff !in [v, f]
  {
    var f := v + Decimal(1);
    var ff := f + Decimal(1);
    assert Fillers(v, 2) == [f];
    assert Fillers(f, 2) == [ff];
    var c: seq<string> := [v];
    var e: seq<string> := [v, f];
    assert c[..0] == [] && e[..1] == c;
    assert ExpandNames(c, 2) == e;
    assert ExpandNames(e, 2) == [v, f, f, ff];
    assert |ff| > |f| > |v|;
  }

  lemma AliasFirstFiller(t: Tables, v: string)
    requires TablesValid(t) && v in t.wordsToInt
    ensures v + Decimal(1) in AliasAll(t, [v], 2).wordsToInt
  {
    assert Fillers(v, 2) == [v + Decimal(1)];
    var c: seq<string> := [v];
    assert c[..0] == [];
    AliasVariableKeys(t, v, 2);
  }

  lemma AliasSecondFiller(t: Tables, v: string, f: string)
    requires TablesValid(t) && f in t.wordsToInt
    ensures f + Decimal(1) in AliasAll(t, [v, f], 2).wordsToInt
  {
    var e: seq<string> := [v, f];
    assert e[..1] == [v];
    AliasAllKeepsKeys(t, [v], 2);
    var mid := AliasAll(t, [v], 2);
    assert AliasAll(t, e, 2) == AliasVariable(mid, f, 2);
    assert Fillers(f, 2) == [f + Decimal(1)];
    AliasVariableKeys(mid, f, 2);
  }

  /** Aliasing one variable adds exactly its fillers, if it has a
      vocabulary. */
  lemma AliasVariableKeys(t: Tables, v: string, n: int)
    requires TablesValid(t)
    ensures forall k :: k in AliasVariable(t, v, n).wordsToInt <==>
      k in t.wordsToInt || (v in t.wordsToInt && k in Fillers(v, n))
  {
  }

  /** `deprocess` never removes a vocabulary. */
  lemma {:induction false} AliasAllKeepsKeys(t: Tables, cats: seq<string>, n: int)
    requires TablesValid(t)
    ensures forall k :: k in t.wordsToInt ==> k in AliasAll(t, cats, n).wordsToInt
  {
    if cats != [] {
      var m := |cats| - 1;
      AliasAllKeepsKeys(t, cats[..m], n);
      AliasVariableKeys(AliasAll(t, cats[..m], n), cats[m], n);
    }
  }

  // ---------------------------------------------------------------------
  // The wrapper object
  // ---------------------------------------------------------------------

  /** The loop of `__init__` over the categorical variables: vocabularies
      for word columns, and `cat_labels` for every column, each as wide as
      its `cat_dims` entry. */
  method IndexCategorical(vars: seq<string>, cols: seq<CatColumn>) returns (t: Tables, labels: seq<(string, seq<real>)>)
    requires |vars| == |cols|
    requires forall i :: 0 <= i < |cols| ==> Rows(cols[i]) > 0
    ensures t == BuildTables(vars, cols)
    ensures |labels| == |cols| && forall i :: 0 <= i < |cols| ==> labels[i] == (vars[i], CatLabels(cols[i]))
    ensures forall i :: 0 <= i < |labels| ==> CatDim(cols[i]) == |labels[i].1| >= 1
  {
    var w2i: map<string, map<string, int>> := map[];
    var i2w: map<string, map<int, string>> := map[];
    labels := [];
    for k := 0 to |vars|
      invariant Tables(w2i, i2w) == BuildTables(vars[..k], cols[..k])
      invariant |labels| == k && forall i :: 0 <= i < k ==> labels[i] == (vars[i], CatLabels(cols[i]))
    {
      var v := vars[k];
      LabelsSnoc(vars, cols, labels, k);
      labels := labels + [(v, CatLabels(cols[k]))];
      BuildTablesSnoc(vars, cols, k);
      match cols[k] {
        case Words(words) =>
          AddVocabularyWords(Tables(w2i, i2w), v, words);
          var vocabulary := Vocabulary(words);
          w2i := w2i[v := WordsToInt(vocabulary)];
          i2w := i2w[v := IntToWords(vocabulary)];
        case Floats(_) =>
      }
    }
    assert vars[..|vars|] == vars;
    assert cols[..|cols|] == cols;
    t := Tables(w2i, i2w);
    LabelDims(vars, cols, labels);
  }

  lemma LabelsSnoc(vars: seq<string>, cols: seq<CatColumn>, labels: seq<(string, seq<real>)>, k: nat)
    requires |vars| == |cols| && k < |cols|
    requires |labels| == k && forall i :: 0 <= i < k ==> labels[i] == (vars[i], CatLabels(cols[i]))
    ensures var next := labels + [(vars[k], CatLabels(cols[k]))];
      |next| == k + 1 && forall i :: 0 <= i < k + 1 ==> next[i] == (vars[i], CatLabels(cols[i]))
  {
  }

  lemma LabelDims(vars: seq<string>, cols: seq<CatColumn>, labels: seq<(string, seq<real>)>)
    requires |vars| == |cols| == |labels|
    requires forall i :: 0 <= i < |cols| ==> Rows(cols[i]) > 0
    requires forall i :: 0 <= i < |cols| ==> labels[i] == (vars[i], CatLabels(cols[i]))
    ensures forall i :: 0 <= i < |labels| ==> CatDim(cols[i]) == |labels[i].1| >= 1
  {
    forall i | 0 <= i < |labels| ensures CatDim(cols[i]) == |labels[i].1| >= 1 {
      CatDimMatchesLabels(cols[i]);
      CatDimPositive(cols[i]);
    }
  }

  class DataWrapper {
    const continuous: seq<string>
    /** `variables["categorical"]`, reassigned by `deprocess`. */
    var categorical: seq<string>
    const context: seq<string>
    const contMeans: seq<real>
    const contStds: seq<real>
    const ctxMeans: seq<real>
    const ctxStds: seq<real>
    const catDims: seq<nat>
    const catLabels: seq<(string, seq<real>)>
    var wordsToInt: map<string, map<string, int>>
    var intToWords: map<string, map<int, string>>
    /** `cont_bounds[0]` and `cont_bounds[1]`, z-scored. */
    const lowerBounds: seq<real>
    const upperBounds: seq<real>

    ghost predicate Valid()
      reads this
    {
      && TablesValid(Tables(wordsToInt, intToWords))
      && |catDims| == |catLabels|
      && (forall i :: 0 <= i < |catLabels| ==> catDims[i] == |catLabels[i].1| >= 1)
      && |contMeans| == |contStds| == |continuous| == |lowerBounds| == |upperBounds|
      && |ctxMeans| == |ctxStds| == |context|
      && (forall i :: 0 <= i < |contStds| ==> contStds[i] > 0.0)
      && (forall i :: 0 <= i < |ctxStds| ==> ctxStds[i] > 0.0)
    }

    /** `DataWrapper(df, continuous_vars, categorical_vars, context_vars,
        lower, upper)`, with the frame given column by column and the
        square root behind `std` given as the sample standard deviations. */
    constructor (continuousVars: seq<string>, contCols: seq<seq<real>>, contSd: seq<real>,
                 categoricalVars: seq<string>, catCols: seq<CatColumn>,
                 contextVars: seq<string>, ctxCols: seq<seq<real>>, ctxSd: seq<real>,
                 lower: map<string, real>, upper: map<string, real>)
      requires |contCols| == |continuousVars| && SampleStds(contCols, contSd)
      requires |ctxCols| == |contextVars| && SampleStds(ctxCols, ctxSd)
      requires |catCols| == |categoricalVars| && forall i :: 0 <= i < |catCols| ==> Rows(catCols[i]) > 0
      ensures Valid()
      ensures continuous == continuousVars && categorical == categoricalVars && context == contextVars
      ensures contMeans == Means(contCols) && contStds == Stds(contSd)
      ensures ctxMeans == Means(ctxCols) && ctxStds == Stds(ctxSd)
      ensures catDims == seq(|catCols|, i requires 0 <= i < |catCols| => CatDim(catCols[i]))
      ensures |catLabels| == |catCols| && forall i :: 0 <= i < |catCols| ==> catLabels[i] == (categoricalVars[i], CatLabels(catCols[i]))
      ensures Tables(wordsToInt, intToWords) == BuildTables(categoricalVars, catCols)
      ensures lowerBounds == ScaledBounds(continuousVars, lower, DefaultLower, contMeans, contStds)
      ensures upperBounds == ScaledBounds(continuousVars, upper, DefaultUpper, contMeans, contStds)
    {
      var means, stds := Means(contCols), Stds(contSd);
      continuous, categorical, context := continuousVars, categoricalVars, contextVars;
      contMeans, contStds := means, stds;
      ctxMeans, ctxStds := Means(ctxCols), Stds(ctxSd);
      catDims := seq(|catCols|, i requires 0 <= i < |catCols| => CatDim(catCols[i]));

      var tables, labels := IndexCategorical(categoricalVars, catCols);
      wordsToInt, intToWords := tables.wordsToInt, tables.intToWords;
      catLabels := labels;
      lowerBounds := ScaledBounds(continuousVars, lower, DefaultLower, means, stds);
      upperBounds := ScaledBounds(continuousVars, upper, DefaultUpper, means, stds);
    }

    /** The original categorical names, as `cat_labels` keeps them. */
    function CatNames(): seq<string>
      reads this
    {
      seq(|catLabels|, i requires 0 <= i < |catLabels| => catLabels[i].0)
    }

    /** For every categorical block: whether its variable has a vocabulary
        now, and its number of categories. */
    function DrawBlocks(): (r: seq<(bool, nat)>)
      requires Valid()
      reads this
      ensures |r| == |catLabels|
      ensures forall i :: 0 <= i < |r| ==>
        (r[i].0 <==> catLabels[i].0 in intToWords) && r[i].1 == |catLabels[i].1| >= 1
    {
      var vocabularies := intToWords;
      seq(|catLabels|, i requires 0 <= i < |catLabels| => (catLabels[i].0 in vocabularies, catDims[i]))
    }

    /** Width of `torch.cat([continuous, categorical, context], -1)` once
        every categorical variable has been sampled for `rows` rows. */
    function OutputWidth(n: int, rows: nat): (w: nat)
      requires Valid()
      reads this
      ensures w <= |continuous| + |catLabels| * Draws(n) + |context|
      ensures rows > 0 && FirstDrawError(DrawBlocks(), n, rows).None? ==>
        w == |continuous| + |catLabels| * Draws(n) + |context|
    {
      |continuous| + CatWidth(DrawBlocks(), n, rows) + |context|
    }

    /** The inner loop of `deprocess`: each filler gets the variable's
        tables, entry by entry. */
    method CopyTables(v: string, fillers: seq<string>)
      requires v in wordsToInt && v in intToWords && v !in fillers
      modifies this
      ensures Tables(wordsToInt, intToWords) == AliasFillers(old(Tables(wordsToInt, intToWords)), v, fillers)
      ensures categorical == old(categorical)
    {
      ghost var before := Tables(wordsToInt, intToWords);
      var w2i, i2w := wordsToInt, intToWords;
      for j := 0 to |fillers|
        invariant Tables(w2i, i2w) == AliasFillers(before, v, fillers[..j])
        invariant categorical == old(categorical)
      {
        AliasFillersSnoc(before, v, fillers, j);
        w2i := w2i[fillers[j] := w2i[v]];
        i2w := i2w[fillers[j] := i2w[v]];
      }
      wordsToInt, intToWords := w2i, i2w;
      assert fillers[..|fillers|] == fillers;
    }

    /** The bookkeeping of `deprocess(x, context, n)` for `rows` generated
        rows: sampling (its values are not modelled) may fail first and then
        changes nothing; otherwise the name list is replaced by its
        expansion, fillers of vocabulary variables get the variable's
        tables, the column names are zipped with the output columns, and
        every vocabulary variable must be one of those columns. The
        returned names are the frame's columns. */
    method Deprocess(n: int, rows: nat) returns (r: Result<seq<string>, DeprocessError>)
      requires Valid()
      modifies this
      ensures Valid()
      ensures old(FirstDrawError(DrawBlocks(), n, rows)).Some? ==>
        r == Failure(old(FirstDrawError(DrawBlocks(), n, rows)).value) &&
        categorical == old(categorical) && wordsToInt == old(wordsToInt) && intToWords == old(intToWords)
      ensures old(FirstDrawError(DrawBlocks(), n, rows)).None? ==>
        && categorical == ExpandNames(old(categorical), n)
        && Tables(wordsToInt, intToWords) == AliasAll(Tables(old(wordsToInt), old(intToWords)), old(categorical), n)
        && var columns := ZipKeys(continuous + categorical + context, old(OutputWidth(n, rows)));
           r == if forall v :: v in wordsToInt ==> v in columns then Success(columns) else Failure(MissingColumn)
    {
      var blocks := DrawBlocks();
      var width := OutputWidth(n, rows);
      for i := 0 to |blocks|
        invariant FirstDrawError(blocks, n, rows) == FirstDrawError(blocks[i..], n, rows)
      {
        assert blocks[i..][1..] == blocks[i + 1..];
        var e := DrawError(blocks[i].0, blocks[i].1, n, rows);
        if e.Some? {
          return Failure(e.value);
        }
      }
      assert blocks[|blocks|..] == [];
      ghost var t0 := Tables(wordsToInt, intToWords);
      var cats := categorical;
      var expanded: seq<string> := [];
      for idx := 0 to |cats|
        invariant expanded == ExpandNames(cats[..idx], n)
        invariant Tables(wordsToInt, intToWords) == AliasAll(t0, cats[..idx], n)
      {
        assert cats[..idx + 1][..idx] == cats[..idx];
        var v := cats[idx];
        var fillers := Fillers(v, n);
        expanded := expanded + [v] + fillers;
        if v in wordsToInt {
          FillerIsNotVariable(v, n);
          CopyTables(v, fillers);
        }
      }
      assert cats[..|cats|] == cats;
      categorical := expanded;
      var columns := ZipKeys(continuous + categorical + context, width);
      if forall v :: v in wordsToInt ==> v in columns {
        r := Success(columns);
      } else {
        r := Failure(MissingColumn);
      }
    }
  }
}
