/**
 * The reductions at the end of the critic's gradient penalty and of the
 * kernel-regression monotonicity penalty, over values that the networks
 * and autograd would produce.
 */
module Penalties {
  import opened Wrappers
  import Bounds
  import Codec

  function Relu(x: real): (r: real)
    ensures r >= 0.0 && (r == 0.0 <==> x <= 0.0)
  {
    if x > 0.0 then x else 0.0
  }

  /** A sum of non-negative terms is non-negative, and zero only when every
      term is. */
  lemma {:induction false} SumNonNegative(xs: seq<real>)
    requires forall i :: 0 <= i < |xs| ==> xs[i] >= 0.0
    ensures Codec.Sum(xs) >= 0.0
    ensures Codec.Sum(xs) == 0.0 <==> forall i :: 0 <= i < |xs| ==> xs[i] == 0.0
  {
    if xs != [] {
      var init := xs[..|xs| - 1];
      SumNonNegative(init);
      if Codec.Sum(xs) == 0.0 {
        forall i | 0 <= i < |xs| ensures xs[i] == 0.0 {
          if i < |xs| - 1 {
            assert init[i] == xs[i];
          }
        }
      }
    }
  }

  /** Dividing every term divides the sum. */
  lemma {:induction false} SumDivide(xs: seq<real>, c: real)
    requires c != 0.0
    ensures Codec.Sum(seq(|xs|, i requires 0 <= i < |xs| => xs[i] / c)) == Codec.Sum(xs) / c
  {
    var scaled := seq(|xs|, i requires 0 <= i < |xs| => xs[i] / c);
    if xs != [] {
      var init := xs[..|xs| - 1];
      SumDivide(init, c);
      assert scaled[..|xs| - 1] == seq(|init|, i requires 0 <= i < |init| => init[i] / c);
      assert Codec.Sum(scaled) == Codec.Sum(init) / c + xs[|xs| - 1] / c;
    }
  }

  /** `F.relu(gradients.norm(2, dim=1) - 1).mean()` over the batch's
      gradient norms; the mean of an empty batch is NaN (`None`). */
  function GradientPenalty(norms: seq<real>): (r: Option<real>)
    ensures r.None? <==> norms == []
  {
    if norms == [] then None
    else Some(Codec.Sum(seq(|norms|, i requires 0 <= i < |norms| => Relu(norms[i] - 1.0))) / (|norms| as real))
  }

  /** The penalty is one-sided: never negative, and zero exactly when no
      gradient norm exceeds 1. */
  lemma GradientPenaltyOneSided(norms: seq<real>)
    requires norms != []
    ensures GradientPenalty(norms).value >= 0.0
    ensures GradientPenalty(norms).value == 0.0 <==> forall i :: 0 <= i < |norms| ==> norms[i] <= 1.0
  {
    var terms := seq(|norms|, i requires 0 <= i < |norms| => Relu(norms[i] - 1.0));
    SumNonNegative(terms);
    assert forall i :: 0 <= i < |norms| ==> (terms[i] == 0.0 <==> norms[i] <= 1.0);
    var n := |norms| as real;
    assert GradientPenalty(norms).value == Codec.Sum(terms) / n;
  }

  /** `(1 - u²).clamp_min(0)`. */
  function Kernel(u: real): (k: real)
    ensures 0.0 <= k <= 1.0
    ensures k == 0.0 <==> u * u >= 1.0
  {
    var k := 1.0 - u * u;
    assert u * u >= 0.0 by { SquareNonNegative(u); }
    if k > 0.0 then k else 0.0
  }

  lemma SquareNonNegative(u: real)
    ensures u * u >= 0.0
  {
  }

  /** The kernel peaks at 0 and is symmetric. */
  lemma KernelShape(u: real)
    ensures Kernel(0.0) == 1.0
    ensures Kernel(-u) == Kernel(u)
  {
    assert (-u) * (-u) == u * u;
  }

  const GridPoints := 20

  /** `(x_max - x_min) * arange(20) / 20 + x_min`. */
  function Grid(xMin: real, xMax: real): (g: seq<real>)
    ensures |g| == GridPoints
  {
    seq(GridPoints, j => GridPoint(xMin, xMax, j as real))
  }

  /** The grid point at position t (of 20) between the two ends. */
  function GridPoint(xMin: real, xMax: real, t: real): real
  {
    (xMax - xMin) * t / 20.0 + xMin
  }

  lemma GridPointLess(xMin: real, xMax: real, s: real, t: real)
    requires xMin < xMax && s < t
    ensures GridPoint(xMin, xMax, s) < GridPoint(xMin, xMax, t)
  {
    var d := xMax - xMin;
    Bounds.MulStrict(s, t, d);
    Bounds.DivMonotone(s * d, t * d, 20.0);
    assert GridPoint(xMin, xMax, s) == s * d / 20.0 + xMin;
    assert GridPoint(xMin, xMax, t) == t * d / 20.0 + xMin;
  }

  lemma GridPointEnds(xMin: real, xMax: real)
    ensures GridPoint(xMin, xMax, 0.0) == xMin
    ensures GridPoint(xMin, xMax, 20.0) == xMax
  {
  }

  /** The grid starts at `x_min`, is strictly increasing and stays below
      `x_max` when `x_min < x_max`. */
  lemma GridIncreasing(xMin: real, xMax: real)
    requires xMin < xMax
    ensures Grid(xMin, xMax)[0] == xMin
    ensures forall i, j :: 0 <= i < j < GridPoints ==> Grid(xMin, xMax)[i] < Grid(xMin, xMax)[j]
    ensures forall j :: 0 <= j < GridPoints ==> Grid(xMin, xMax)[j] < xMax
  {
    var g := Grid(xMin, xMax);
    GridPointEnds(xMin, xMax);
    forall i, j | 0 <= i < j < GridPoints ensures g[i] < g[j] {
      GridPointLess(xMin, xMax, i as real, j as real);
    }
    forall j | 0 <= j < GridPoints ensures g[j] < xMax {
      GridPointLess(xMin, xMax, j as real, 20.0);
    }
  }

  /** A bound given on the original scale, standardised by the wrapper's
      mean and (already floored) std plus `1e-3`. */
  function StandardiseBound(x: real, mean: real, std: real): real
    requires std > 0.0
  {
    Bounds.ZScore(x, mean, std + 0.001)
  }

  /** Standardising keeps `x_min < x_max`. */
  lemma StandardiseKeepsOrder(a: real, b: real, mean: real, std: real)
    requires std > 0.0 && a < b
    ensures StandardiseBound(a, mean, std) < StandardiseBound(b, mean, std)
  {
    Bounds.ZScoreMonotone(a, b, mean, std + 0.001);
  }

  /** Kernel weights of the sample points around one grid point. */
  function Weights(center: real, x: seq<real>, h: real): (w: seq<real>)
    requires h != 0.0
    ensures |w| == |x| && forall i :: 0 <= i < |x| ==> w[i] >= 0.0
  {
    seq(|x|, i requires 0 <= i < |x| => Kernel((center - x[i]) / h))
  }

  /** `W / (W.sum(-1) + 1e-2)`. */
  function Normalise(w: seq<real>): (n: seq<real>)
    requires forall i :: 0 <= i < |w| ==> w[i] >= 0.0
    ensures |n| == |w|
  {
    SumNonNegative(w);
    seq(|w|, i requires 0 <= i < |w| => w[i] / (Codec.Sum(w) + 0.01))
  }

  /** The normalised weights are non-negative and sum to less than one, so
      each conditional mean shrinks toward zero where few points are near. */
  lemma NormaliseBelowOne(w: seq<real>)
    requires forall i :: 0 <= i < |w| ==> w[i] >= 0.0
    ensures forall i :: 0 <= i < |w| ==> Normalise(w)[i] >= 0.0
    ensures 0.0 <= Codec.Sum(Normalise(w)) < 1.0
  {
    SumNonNegative(w);
    var c := Codec.Sum(w) + 0.01;
    SumDivide(w, c);
    assert Codec.Sum(Normalise(w)) == Codec.Sum(w) / c;
  }

  function Dot(a: seq<real>, b: seq<real>): real
    requires |a| == |b|
  {
    Codec.Sum(seq(|a|, i requires 0 <= i < |a| => a[i] * b[i]))
  }

  /** `y_mean`: the kernel-weighted mean of y at every grid point. */
  function ConditionalMeans(grid: seq<real>, x: seq<real>, y: seq<real>, h: real): (m: seq<real>)
    requires h != 0.0 && |x| == |y|
    ensures |m| == |grid|
  {
    seq(|grid|, j requires 0 <= j < |grid| => Dot(Normalise(Weights(grid[j], x, h)), y))
  }

  /** One clamped, scaled drop from a to b. */
  function Drop(factor: real, a: real, b: real): (r: real)
    ensures r >= 0.0 && (r == 0.0 <==> factor * (a - b) <= 0.0)
  {
    Relu(factor * (a - b))
  }

  /** `(factor * (m[:-1] - m[1:])).clamp_min(0)`. */
  function DropTerms(factor: real, m: seq<real>): (t: seq<real>)
    ensures |t| == if |m| < 2 then 0 else |m| - 1
    ensures forall j :: 0 <= j < |t| ==> t[j] == Drop(factor, m[j], m[j + 1])
  {
    if |m| < 2 then [] else seq(|m| - 1, j requires 0 <= j < |m| - 1 => Drop(factor, m[j], m[j + 1]))
  }

  /** Their `.sum()`. */
  function Drops(factor: real, m: seq<real>): real
  {
    Codec.Sum(DropTerms(factor, m))
  }

  /** The penalty is never negative, and zero exactly when no scaled
      adjacent drop is positive. */
  lemma DropsZeroIff(factor: real, m: seq<real>)
    ensures Drops(factor, m) >= 0.0
    ensures Drops(factor, m) == 0.0 <==> forall j :: 0 <= j < |m| - 1 ==> factor * (m[j] - m[j + 1]) <= 0.0
  {
    var t := DropTerms(factor, m);
    SumNonNegative(t);
    if Drops(factor, m) == 0.0 {
      forall j | 0 <= j < |m| - 1 ensures factor * (m[j] - m[j + 1]) <= 0.0 {
        assert t[j] == 0.0;
      }
    }
    if forall j :: 0 <= j < |m| - 1 ==> factor * (m[j] - m[j + 1]) <= 0.0 {
      forall j | 0 <= j < |t| ensures t[j] == 0.0 {
        assert factor * (m[j] - m[j + 1]) <= 0.0;
      }
    }
  }

  /** For a positive factor the penalty vanishes exactly when the means
      never decrease from one grid point to the next. */
  lemma DropsZeroIffMonotone(factor: real, m: seq<real>)
    requires factor > 0.0
    ensures Drops(factor, m) == 0.0 <==> forall j :: 0 <= j < |m| - 1 ==> m[j] <= m[j + 1]
  {
    DropsZeroIff(factor, m);
    ScaledDropsIff(factor, m);
  }

  /** A positive factor does not change which adjacent pairs drop. */
  lemma ScaledDropsIff(factor: real, m: seq<real>)
    requires factor > 0.0
    ensures (forall j :: 0 <= j < |m| - 1 ==> factor * (m[j] - m[j + 1]) <= 0.0) <==>
            (forall j :: 0 <= j < |m| - 1 ==> m[j] <= m[j + 1])
  {
    forall j | 0 <= j < |m| - 1 ensures factor * (m[j] - m[j + 1]) <= 0.0 <==> m[j] <= m[j + 1] {
      SignOfProduct(factor, m[j] - m[j + 1]);
    }
  }

  lemma SignOfProduct(f: real, d: real)
    requires f > 0.0
    ensures f * d <= 0.0 <==> d <= 0.0
  {
    if d > 0.0 {
      assert f * d > 0.0;
    }
  }

  /** The penalty closure of `monotonicity_penalty_kernreg`, given the
      `idx_in` column x and the `idx_out` column y of the generated batch. */
  function KernRegPenalty(factor: real, h: real, xMin: real, xMax: real, x: seq<real>, y: seq<real>): (p: real)
    requires h != 0.0 && |x| == |y|
    ensures p >= 0.0
    ensures factor > 0.0 ==>
      var m := ConditionalMeans(Grid(xMin, xMax), x, y, h);
      (p == 0.0 <==> forall j :: 0 <= j < GridPoints - 1 ==> m[j] <= m[j + 1])
  {
    var m := ConditionalMeans(Grid(xMin, xMax), x, y, h);
    DropsZeroIff(factor, m);
    if factor > 0.0 then DropsZeroIffMonotone(factor, m); Drops(factor, m) else Drops(factor, m)
  }
}
