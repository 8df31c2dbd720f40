/**
 * The dimensions `Specifications` derives from a `DataWrapper`, the layer
 * shapes of `Generator` and `Critic`, and the bound clamp of
 * `Generator._transform`.
 */
module Networks {
  import opened Wrappers
  import opened Bounds
  import Codec

  function SumNat(xs: seq<nat>): nat
  {
    if xs == [] then 0 else SumNat(xs[..|xs| - 1]) + xs[|xs| - 1]
  }

  /** The shape information a `DataWrapper` hands to `Specifications`. */
  datatype DataDims = DataDims(dCont: nat, catDims: seq<nat>, dContext: nat, lower: seq<real>, upper: seq<real>)

  function WrapperDims(w: Codec.DataWrapper): (d: DataDims)
    requires w.Valid()
    reads w
    ensures d.dCont == |w.continuous| && d.catDims == w.catDims && d.dContext == |w.context|
    ensures |d.lower| == |d.upper| == d.dCont
  {
    DataDims(|w.continuous|, w.catDims, |w.context|, w.lowerBounds, w.upperBounds)
  }

  /** `generator_d_noise`: the string "generator_d_output" or a width. */
  datatype NoiseWidth = GeneratorOutput | Width(width: nat)

  /** `generator_optimizer`: the string "optimizer" or its own optimizer. */
  datatype GeneratorOptimizer = SameAsCritic | Own(name: string)

  datatype Settings = Settings(
    optimizer: string,
    criticHidden: seq<nat>, criticDropout: real, criticSteps: int, criticLr: real, criticGpFactor: real,
    generatorHidden: seq<nat>, generatorDropout: real, generatorLr: real,
    generatorNoise: NoiseWidth, generatorOptimizer: GeneratorOptimizer,
    maxEpochs: int, batchSize: int, testSetSize: int,
    loadCheckpoint: Option<string>, saveCheckpoint: Option<string>,
    saveEvery: int, printEvery: int)

  /** The keyword defaults of `Specifications.__init__`. */
  function DefaultSettings(): (s: Settings)
    ensures s.criticSteps == 15 && s.maxEpochs == 1000 && s.batchSize == 32 && s.testSetSize == 16
    ensures s.saveEvery == 100 && s.printEvery == 200
    ensures s.criticHidden == s.generatorHidden == [128, 128, 128]
    ensures s.generatorNoise == GeneratorOutput && s.generatorOptimizer == SameAsCritic
  {
    Settings("Adam", [128, 128, 128], 0.0, 15, 0.0001, 5.0,
             [128, 128, 128], 0.1, 0.0001, GeneratorOutput, SameAsCritic,
             1000, 32, 16, None, None, 100, 200)
  }

  /** `settings` after the noise sentinel is resolved, and `data`. */
  datatype Specification = Specification(settings: Settings, dNoise: nat, dContext: nat, dX: nat,
                                         catDims: seq<nat>, lower: seq<real>, upper: seq<real>)

  function Specify(d: DataDims, s: Settings): (spec: Specification)
    ensures spec.dX == d.dCont + SumNat(d.catDims)
    ensures spec.dContext == d.dContext && spec.catDims == d.catDims
    ensures s.generatorNoise == GeneratorOutput ==> spec.dNoise == spec.dX
    ensures s.generatorNoise.Width? ==> spec.dNoise == s.generatorNoise.width
  {
    var dX := d.dCont + SumNat(d.catDims);
    var noise := match s.generatorNoise
      case GeneratorOutput => dX
      case Width(w) => w;
    Specification(s, noise, d.dContext, dX, d.catDims, d.lower, d.upper)
  }

  /** `zip(d_in, d_out)` with `d_in = [first] + hidden` and
      `d_out = hidden + [last]`: one `(in, out)` pair per `nn.Linear`. */
  function Layers(first: nat, hidden: seq<nat>, last: nat): seq<(nat, nat)>
  {
    var dIn, dOut := [first] + hidden, hidden + [last];
    seq(|hidden| + 1, i requires 0 <= i < |hidden| + 1 => (dIn[i], dOut[i]))
  }

  /** One layer more than hidden widths; the first takes `first`, each
      feeds the next, the last yields `last`. */
  lemma LayersChain(first: nat, hidden: seq<nat>, last: nat)
    ensures |Layers(first, hidden, last)| == |hidden| + 1
    ensures Layers(first, hidden, last)[0].0 == first
    ensures Layers(first, hidden, last)[|hidden|].1 == last
    ensures forall i :: 0 <= i < |hidden| ==>
      Layers(first, hidden, last)[i].1 == hidden[i] == Layers(first, hidden, last)[i + 1].0
  {
  }

  /** The width coming out of a stack of linear layers fed `w` columns, or
      `None` if some layer receives the wrong width. */
  function Forward(layers: seq<(nat, nat)>, w: nat): Option<nat>
  {
    if layers == [] then Some(w)
    else if layers[0].0 != w then None
    else Forward(layers[1..], layers[0].1)
  }

  /** A stack built from `Layers` accepts `first` columns and produces
      `last`, and refuses any other input width. */
  lemma {:induction false} ForwardLayers(first: nat, hidden: seq<nat>, last: nat, w: nat)
    ensures Forward(Layers(first, hidden, last), w) == if w == first then Some(last) else None
    decreases |hidden|
  {
    var ls := Layers(first, hidden, last);
    if hidden != [] {
      assert ls[1..] == Layers(hidden[0], hidden[1..], last);
      ForwardLayers(hidden[0], hidden[1..], last, hidden[0]);
    }
  }

  /** `Generator.layers`. */
  function GeneratorLayers(spec: Specification): (r: seq<(nat, nat)>)
    ensures |r| == |spec.settings.generatorHidden| + 1
    ensures r[0].0 == spec.dNoise + spec.dContext
    ensures r[|r| - 1].1 == |spec.lower| + SumNat(spec.catDims)
  {
    LayersChain(spec.dNoise + spec.dContext, spec.settings.generatorHidden, |spec.lower| + SumNat(spec.catDims));
    Layers(spec.dNoise + spec.dContext, spec.settings.generatorHidden, |spec.lower| + SumNat(spec.catDims))
  }

  /** `Critic.layers`. */
  function CriticLayers(spec: Specification): (r: seq<(nat, nat)>)
    ensures |r| == |spec.settings.criticHidden| + 1
    ensures r[0].0 == spec.dX + spec.dContext && r[|r| - 1].1 == 1
  {
    LayersChain(spec.dX + spec.dContext, spec.settings.criticHidden, 1);
    Layers(spec.dX + spec.dContext, spec.settings.criticHidden, 1)
  }

  /** The generator turns noise and context into a row of width `d_x`;
      with the default noise width its input is `d_x + d_context`. */
  lemma GeneratorShape(d: DataDims, s: Settings)
    requires |d.lower| == d.dCont
    ensures var spec := Specify(d, s);
      && Forward(GeneratorLayers(spec), spec.dNoise + spec.dContext) == Some(spec.dX)
      && |GeneratorLayers(spec)| == |s.generatorHidden| + 1
      && (s.generatorNoise == GeneratorOutput ==> GeneratorLayers(spec)[0].0 == spec.dX + spec.dContext)
  {
    var spec := Specify(d, s);
    var first, last := spec.dNoise + spec.dContext, |spec.lower| + SumNat(spec.catDims);
    assert last == spec.dX;
    ForwardLayers(first, s.generatorHidden, last, first);
  }

  /** The critic accepts a generated row together with its context and
      returns one score. */
  lemma CriticShape(d: DataDims, s: Settings)
    ensures var spec := Specify(d, s);
      && Forward(CriticLayers(spec), spec.dX + spec.dContext) == Some(1)
      && |CriticLayers(spec)| == |s.criticHidden| + 1
  {
    var spec := Specify(d, s);
    ForwardLayers(spec.dX + spec.dContext, s.criticHidden, 1, spec.dX + spec.dContext);
  }

  /** The continuous part of `_transform` on one row: the max with the
      lower bound, then the min with the upper bound, column by column. */
  function Transform(row: seq<real>, lower: seq<real>, upper: seq<real>): (out: seq<real>)
    requires |row| == |lower| == |upper|
    ensures |out| == |row|
  {
    seq(|row|, i requires 0 <= i < |row| => Clamp(row[i], lower[i], upper[i]))
  }

  /** Every output is at most its upper bound, at least its lower bound
      when the bounds are ordered, and a value inside its bounds is kept. */
  lemma TransformBounded(row: seq<real>, lower: seq<real>, upper: seq<real>)
    requires |row| == |lower| == |upper|
    ensures forall i :: 0 <= i < |row| ==> Transform(row, lower, upper)[i] <= upper[i]
    ensures forall i :: 0 <= i < |row| && lower[i] <= upper[i] ==> lower[i] <= Transform(row, lower, upper)[i]
    ensures forall i :: 0 <= i < |row| && lower[i] <= row[i] <= upper[i] ==> Transform(row, lower, upper)[i] == row[i]
  {
  }

  /** Clamping an already clamped row changes nothing. */
  lemma TransformIdempotent(row: seq<real>, lower: seq<real>, upper: seq<real>)
    requires |row| == |lower| == |upper|
    ensures Transform(Transform(row, lower, upper), lower, upper) == Transform(row, lower, upper)
  {
    var once := Transform(row, lower, upper);
    forall i | 0 <= i < |row| ensures Transform(once, lower, upper)[i] == once[i] {
      ClampIdempotent(row[i], lower[i], upper[i]);
    }
  }
}
