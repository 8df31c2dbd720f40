/**
 * Continuous bounds: the ±1e8 sentinels for unconfigured variables, the
 * z-scoring `(b - mean) / std` of the bounds, the inverse `x * std + mean`
 * that `deprocess` applies, and the two-sided clamp of `Generator._transform`.
 * Floats are modelled as exact reals.
 */
module Bounds {

  /** Lower bound of a continuous variable without a configured one. */
  const DefaultLower: real := -100000000.0
  /** Upper bound of a continuous variable without a configured one. */
  const DefaultUpper: real := 100000000.0
  /** Added to every standard deviation (`x.std(0) + 1e-5`). */
  const StdFloor: real := 0.00001

  /** `(x - mean) / std`. */
  function ZScore(x: real, mean: real, std: real): real
    requires std > 0.0
  {
    (x - mean) / std
  }

  /** `x * std + mean`, as `deprocess` undoes the scaling. */
  function Unscale(z: real, mean: real, std: real): real
  {
    z * std + mean
  }

  /** Unscaling a z-score gives back the value, and z-scoring an unscaled
      value gives back the z-score. */
  lemma ScaleRoundTrip(x: real, z: real, mean: real, std: real)
    requires std > 0.0
    ensures Unscale(ZScore(x, mean, std), mean, std) == x
    ensures ZScore(Unscale(z, mean, std), mean, std) == z
  {
    calc {
      Unscale(ZScore(x, mean, std), mean, std);
      ((x - mean) / std) * std + mean;
      { DivMul(x - mean, std); }
      x;
    }
    calc {
      ZScore(Unscale(z, mean, std), mean, std);
      (z * std + mean - mean) / std;
      (z * std) / std;
      { MulDiv(z, std); }
      z;
    }
  }

  lemma DivMul(a: real, s: real)
    requires s > 0.0
    ensures (a / s) * s == a
  {
  }

  lemma MulDiv(a: real, s: real)
    requires s > 0.0
    ensures (a * s) / s == a
  {
  }

  /** Z-scoring with a positive std keeps the order of two bounds. */
  lemma ZScoreMonotone(a: real, b: real, mean: real, std: real)
    requires std > 0.0
    ensures a <= b <==> ZScore(a, mean, std) <= ZScore(b, mean, std)
    ensures a < b <==> ZScore(a, mean, std) < ZScore(b, mean, std)
  {
    DivMonotone(a - mean, b - mean, std);
  }

  lemma DivMonotone(p: real, q: real, s: real)
    requires s > 0.0
    ensures p <= q <==> p / s <= q / s
    ensures p < q <==> p / s < q / s
  {
    assert p == (p / s) * s && q == (q / s) * s;
    if p / s <= q / s {
      MulMonotone(p / s, q / s, s);
    }
    if p / s < q / s {
      MulStrict(p / s, q / s, s);
    }
  }

  lemma MulMonotone(x: real, y: real, s: real)
    requires s > 0.0 && x <= y
    ensures x * s <= y * s
  {
  }

  lemma MulStrict(x: real, y: real, s: real)
    requires s > 0.0 && x < y
    ensures x * s < y * s
  {
  }

  /** The raw bound of one continuous variable: the configured value if the
      variable has one, else the sentinel. */
  function RawBound(v: string, configured: map<string, real>, sentinel: real): real
  {
    if v in configured then configured[v] else sentinel
  }

  /** `[lower[v] if v in lower.keys() else -1e8 for v in continuous]` and its
      upper counterpart, z-scored with the per-variable mean and std. */
  function ScaledBounds(vars: seq<string>, configured: map<string, real>, sentinel: real,
                        means: seq<real>, stds: seq<real>): (r: seq<real>)
    requires |means| == |vars| == |stds| && forall i :: 0 <= i < |stds| ==> stds[i] > 0.0
    ensures |r| == |vars|
  {
    seq(|vars|, i requires 0 <= i < |vars| => ZScore(RawBound(vars[i], configured, sentinel), means[i], stds[i]))
  }

  /** Variables without configured bounds get the sentinels, which are
      ordered; configured bounds that are ordered stay ordered; both stay
      ordered after z-scoring since every std is positive. */
  lemma ScaledBoundsOrdered(vars: seq<string>, lower: map<string, real>, upper: map<string, real>,
                            means: seq<real>, stds: seq<real>, i: nat)
    requires |means| == |vars| == |stds| && forall j :: 0 <= j < |stds| ==> stds[j] > 0.0
    requires i < |vars|
    requires RawBound(vars[i], lower, DefaultLower) <= RawBound(vars[i], upper, DefaultUpper)
    ensures ScaledBounds(vars, lower, DefaultLower, means, stds)[i] <= ScaledBounds(vars, upper, DefaultUpper, means, stds)[i]
  {
    ZScoreMonotone(RawBound(vars[i], lower, DefaultLower), RawBound(vars[i], upper, DefaultUpper), means[i], stds[i]);
  }

  /** An unconfigured variable is bounded by exactly the sentinels, lower
      strictly below upper. */
  lemma UnconfiguredBounds(v: string, lower: map<string, real>, upper: map<string, real>)
    requires v !in lower && v !in upper
    ensures RawBound(v, lower, DefaultLower) == -100000000.0
    ensures RawBound(v, upper, DefaultUpper) == 100000000.0
    ensures RawBound(v, lower, DefaultLower) < RawBound(v, upper, DefaultUpper)
  {
  }

  /** The clamp of `Generator._transform`: the maximum with the lower bound,
      then the minimum with the upper bound. The result never exceeds the
      upper bound; it is within both bounds when they are ordered; a value
      already within the bounds is unchanged; and with crossed bounds the
      upper one wins. */
  function Clamp(x: real, lo: real, hi: real): (r: real)
    ensures r <= hi
    ensures lo <= hi ==> lo <= r
    ensures lo <= x <= hi ==> r == x
    ensures hi < lo ==> r == hi
    ensures r == x || r == lo || r == hi
  {
    var m := if x < lo then lo else x;
    if m > hi then hi else m
  }

  /** Clamping twice is clamping once. */
  lemma ClampIdempotent(x: real, lo: real, hi: real)
    ensures Clamp(Clamp(x, lo, hi), lo, hi) == Clamp(x, lo, hi)
  {
  }

  /** A clamped z-score, unscaled, lies within the raw bounds it came from. */
  lemma ClampedOutputWithinRawBounds(x: real, lower: real, upper: real, mean: real, std: real)
    requires std > 0.0 && lower <= upper
    ensures lower <= Unscale(Clamp(x, ZScore(lower, mean, std), ZScore(upper, mean, std)), mean, std) <= upper
  {
    var lo, hi := ZScore(lower, mean, std), ZScore(upper, mean, std);
    ZScoreMonotone(lower, upper, mean, std);
    var c := Clamp(x, lo, hi);
    ScaleRoundTrip(lower, c, mean, std);
    ScaleRoundTrip(upper, c, mean, std);
    UnscaleMonotone(lo, c, mean, std);
    UnscaleMonotone(c, hi, mean, std);
  }

  lemma UnscaleMonotone(a: real, b: real, mean: real, std: real)
    requires std > 0.0 && a <= b
    ensures Unscale(a, mean, std) <= Unscale(b, mean, std)
  {
    MulMonotone(a, b, std);
  }
}
