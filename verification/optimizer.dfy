/**
 * The bookkeeping of the optimistic Adam optimizer: validation of its
 * hyper-parameters, and per parameter the lazily created state (step
 * counter, first and second moment averages, AMSGrad running maximum)
 * that every `step` call advances. The parameter update itself is not
 * modelled.
 */
module Optimizer {
  import opened Wrappers

  /** The settings of the single parameter group. */
  datatype Hyper = Hyper(lr: real, beta1: real, beta2: real, eps: real, weightDecay: real, amsgrad: bool)

  /** `lr=1e-3, betas=(0.9, 0.999), eps=1e-8, weight_decay=0, amsgrad=False`. */
  const Defaults: Hyper := Hyper(0.001, 0.9, 0.999, 0.00000001, 0.0, false)

  datatype ConfigError = InvalidLearningRate | InvalidEpsilon | InvalidBeta0 | InvalidBeta1

  /** The checks of `OAdam.__init__`, in their order. */
  function Validate(h: Hyper): (r: Option<ConfigError>)
    ensures r.None? <==> 0.0 <= h.lr && 0.0 <= h.eps && 0.0 <= h.beta1 < 1.0 && 0.0 <= h.beta2 < 1.0
    ensures r == Some(InvalidLearningRate) <==> h.lr < 0.0
    ensures r == Some(InvalidEpsilon) <==> 0.0 <= h.lr && h.eps < 0.0
  {
    if !(0.0 <= h.lr) then Some(InvalidLearningRate)
    else if !(0.0 <= h.eps) then Some(InvalidEpsilon)
    else if !(0.0 <= h.beta1 < 1.0) then Some(InvalidBeta0)
    else if !(0.0 <= h.beta2 < 1.0) then Some(InvalidBeta1)
    else None
  }

  /** The defaults pass, and so does a learning rate of zero: only negative
      rates are refused. Weight decay is never checked. */
  lemma ValidateBoundaries(h: Hyper)
    ensures Validate(Defaults).None?
    ensures Validate(h.(lr := 0.0)).None? <==> Validate(h.(lr := 1.0)).None?
    ensures Validate(h.(weightDecay := -1.0)) == Validate(h)
  {
  }

  /** The state of one parameter once it has been created. */
  datatype Slot = Slot(step: nat, expAvg: seq<real>, expAvgSq: seq<real>, maxExpAvgSq: Option<seq<real>>)

  /** Buffers as wide as the parameter; the maximum exists iff AMSGrad is on. */
  predicate SlotShape(slot: Slot, width: nat, amsgrad: bool)
  {
    |slot.expAvg| == width && |slot.expAvgSq| == width &&
    (slot.maxExpAvgSq.Some? <==> amsgrad) &&
    (slot.maxExpAvgSq.Some? ==> |slot.maxExpAvgSq.value| == width)
  }

  /** The second moment is non-negative and never above the running max. */
  predicate SlotBounds(slot: Slot)
  {
    (forall j :: 0 <= j < |slot.expAvgSq| ==> slot.expAvgSq[j] >= 0.0) &&
    (slot.maxExpAvgSq.Some? && |slot.maxExpAvgSq.value| == |slot.expAvgSq| ==>
      forall j :: 0 <= j < |slot.expAvgSq| ==> slot.maxExpAvgSq.value[j] >= slot.expAvgSq[j])
  }

  function Zeros(n: nat): (z: seq<real>)
    ensures |z| == n && forall j :: 0 <= j < n ==> z[j] == 0.0
  {
    seq(n, j => 0.0)
  }

  /** `state['step'] = 0` and `zeros_like` buffers. */
  function InitSlot(width: nat, amsgrad: bool): (slot: Slot)
    ensures SlotShape(slot, width, amsgrad) && SlotBounds(slot) && slot.step == 0
  {
    Slot(0, Zeros(width), Zeros(width), if amsgrad then Some(Zeros(width)) else None)
  }

  /** `grad.add_(weight_decay, p.data)` when the decay is non-zero. */
  function Decay(g: seq<real>, data: seq<real>, weightDecay: real): (d: seq<real>)
    requires |g| == |data|
    ensures |d| == |g|
    ensures weightDecay == 0.0 ==> d == g
  {
    if weightDecay != 0.0 then seq(|g|, j requires 0 <= j < |g| => g[j] + weightDecay * data[j]) else g
  }

  function Max(a: real, b: real): real
  {
    if a >= b then a else b
  }

  /** `state['step'] += 1` and the two running averages, then the running
      maximum of the second moment. */
  function Advance(h: Hyper, slot: Slot, g: seq<real>): (next: Slot)
    requires |slot.expAvg| == |slot.expAvgSq| == |g|
    requires slot.maxExpAvgSq.Some? ==> |slot.maxExpAvgSq.value| == |g|
  {
    var m := seq(|g|, j requires 0 <= j < |g| => h.beta1 * slot.expAvg[j] + (1.0 - h.beta1) * g[j]);
    var v := seq(|g|, j requires 0 <= j < |g| => h.beta2 * slot.expAvgSq[j] + (1.0 - h.beta2) * g[j] * g[j]);
    var mx := match slot.maxExpAvgSq
      case None => None
      case Some(old_) => Some(seq(|g|, j requires 0 <= j < |g| => Max(old_[j], v[j])));
    Slot(slot.step + 1, m, v, mx)
  }

  lemma AverageNonNegative(b: real, v: real, g: real)
    requires 0.0 <= b < 1.0 && v >= 0.0
    ensures b * v + (1.0 - b) * g * g >= 0.0
  {
    MulNonNegative(b, v);
    MulNonNegative(g, g);
    MulNonNegative(1.0 - b, g * g);
    assert (1.0 - b) * g * g == (1.0 - b) * (g * g);
  }

  lemma MulNonNegative(x: real, y: real)
    requires (x >= 0.0 && y >= 0.0) || x == y
    ensures x * y >= 0.0
  {
  }

  /** One advance counts one more step, keeps the shape and the bounds, and
      never lowers the running maximum. */
  lemma AdvanceKeepsInvariants(h: Hyper, slot: Slot, g: seq<real>)
    requires Validate(h).None?
    requires SlotShape(slot, |g|, h.amsgrad) && SlotBounds(slot)
    ensures Advance(h, slot, g).step == slot.step + 1
    ensures SlotShape(Advance(h, slot, g), |g|, h.amsgrad) && SlotBounds(Advance(h, slot, g))
    ensures slot.maxExpAvgSq.Some? ==> forall j :: 0 <= j < |g| ==>
      Advance(h, slot, g).maxExpAvgSq.value[j] >= slot.maxExpAvgSq.value[j]
  {
    var next := Advance(h, slot, g);
    forall j | 0 <= j < |g| ensures next.expAvgSq[j] >= 0.0 {
      AverageNonNegative(h.beta2, slot.expAvgSq[j], g[j]);
    }
  }

  /** From fresh state the first step leaves `(1-β1)·g` and `(1-β2)·g²`. */
  lemma FirstAdvance(h: Hyper, g: seq<real>)
    ensures var slot := Advance(h, InitSlot(|g|, h.amsgrad), g);
      slot.step == 1 &&
      forall j :: 0 <= j < |g| ==>
        slot.expAvg[j] == (1.0 - h.beta1) * g[j] && slot.expAvgSq[j] == (1.0 - h.beta2) * g[j] * g[j]
  {
  }

  datatype Grad = NoGrad | Dense(values: seq<real>) | Sparse

  datatype Param = Param(data: seq<real>, grad: Grad)

  datatype StepError = SparseGradient

  /** Every dense gradient is as wide as its parameter. */
  predicate GradsFit(params: seq<Param>)
  {
    forall i :: 0 <= i < |params| && params[i].grad.Dense? ==> |params[i].grad.values| == |params[i].data|
  }

  /** Index of the first parameter with a sparse gradient, if any. */
  function FirstSparse(params: seq<Param>): (r: Option<nat>)
    ensures r.None? <==> forall i :: 0 <= i < |params| ==> !params[i].grad.Sparse?
    ensures r.Some? ==> (r.value < |params| && params[r.value].grad.Sparse? &&
      forall i :: 0 <= i < r.value ==> !params[i].grad.Sparse?)
  {
    if params == [] then None
    else if params[0].grad.Sparse? then Some(0)
    else
      var rest := FirstSparse(params[1..]);
      assert forall i :: 1 <= i < |params| ==> params[i] == params[1..][i - 1];
      if rest.None? then None else Some(rest.value + 1)
  }

  /** Number of parameters `step` gets through before it returns or raises. */
  function Reached(params: seq<Param>): nat
  {
    match FirstSparse(params)
    case None => |params|
    case Some(i) => i
  }

  /** The state after parameter i: unchanged without a gradient, otherwise
      created if absent and advanced with the decayed gradient. */
  function UpdateSlot(h: Hyper, state: map<nat, Slot>, i: nat, p: Param): map<nat, Slot>
    requires p.grad.Dense? ==> |p.grad.values| == |p.data|
    requires p.grad.Dense? && i in state ==> SlotShape(state[i], |p.data|, h.amsgrad)
  {
    match p.grad
    case Dense(g) =>
      var slot := if i in state then state[i] else InitSlot(|p.data|, h.amsgrad);
      state[i := Advance(h, slot, Decay(g, p.data, h.weightDecay))]
    case _ => state
  }

  /** Whether each existing slot matches its parameter's width. */
  predicate StateFits(h: Hyper, state: map<nat, Slot>, params: seq<Param>)
  {
    forall i :: 0 <= i < |params| && i in state ==> SlotShape(state[i], |params[i].data|, h.amsgrad)
  }

  /** The state after the first `count` parameters. */
  function StepState(h: Hyper, state: map<nat, Slot>, params: seq<Param>, count: nat): (r: map<nat, Slot>)
    requires count <= |params| && GradsFit(params) && StateFits(h, state, params)
    ensures StateFits(h, r, params)
    ensures forall i :: i in r ==> i in state || i < count
  {
    if count == 0 then state
    else
      var prev := StepState(h, state, params, count - 1);
      UpdateSlot(h, prev, count - 1, params[count - 1])
  }

  /** The gradients after `step`: the decay is applied in place to each
      dense gradient it reached. */
  function StepGrads(h: Hyper, params: seq<Param>): (r: seq<Grad>)
    requires GradsFit(params)
    ensures |r| == |params|
  {
    var reached := Reached(params);
    seq(|params|, i requires 0 <= i < |params| =>
      if i < reached && params[i].grad.Dense? then Dense(Decay(params[i].grad.values, params[i].data, h.weightDecay))
      else params[i].grad)
  }

  lemma StepStateNext(h: Hyper, state: map<nat, Slot>, params: seq<Param>, i: nat)
    requires i < |params| && GradsFit(params) && StateFits(h, state, params)
    ensures var prev := StepState(h, state, params, i);
      (params[i].grad.Dense? ==> |params[i].grad.values| == |params[i].data|) &&
      (i in prev ==> SlotShape(prev[i], |params[i].data|, h.amsgrad)) &&
      StepState(h, state, params, i + 1) == UpdateSlot(h, prev, i, params[i])
  {
  }

  /** The gradients once the first `count` parameters were processed. */
  ghost predicate GradsAfter(h: Hyper, params: seq<Param>, grads: seq<Grad>, count: nat)
    requires GradsFit(params)
  {
    |grads| == |params| &&
    forall j :: 0 <= j < |params| ==>
      grads[j] == (if j < count && params[j].grad.Dense? then Dense(Decay(params[j].grad.values, params[j].data, h.weightDecay))
                   else params[j].grad)
  }

  lemma GradsAfterNext(h: Hyper, params: seq<Param>, grads: seq<Grad>, i: nat)
    requires GradsFit(params) && i < |params| && GradsAfter(h, params, grads, i)
    ensures params[i].grad.NoGrad? ==> GradsAfter(h, params, grads, i + 1)
    ensures params[i].grad.Dense? ==> GradsAfter(h, params,
      grads[i := Dense(Decay(params[i].grad.values, params[i].data, h.weightDecay))], i + 1)
  {
  }

  lemma GradsAfterReached(h: Hyper, params: seq<Param>, grads: seq<Grad>)
    requires GradsFit(params) && GradsAfter(h, params, grads, Reached(params))
    ensures grads == StepGrads(h, params)
  {
  }

  class OAdam {
    const hyper: Hyper
    /** `self.state`, keyed by the parameter's position in its group. */
    var state: map<nat, Slot>

    ghost predicate Valid()
      reads this
    {
      Validate(hyper).None? && forall i :: i in state ==> SlotBounds(state[i])
    }

    constructor (h: Hyper)
      requires Validate(h).None?
      ensures Valid() && hyper == h && state == map[]
    {
      hyper, state := h, map[];
    }

    /** `OAdam.step()`: parameters in order; one without a gradient is
        skipped, a sparse gradient raises (after the earlier parameters were
        processed), a dense one is decayed in place and advances that
        parameter's state, created with zero moments on first use. Returns
        the gradients as left by the call. */
    method Step(params: seq<Param>) returns (grads: seq<Grad>, error: Option<StepError>)
      requires Valid() && GradsFit(params) && StateFits(hyper, state, params)
      modifies this
      ensures Valid()
      ensures state == StepState(hyper, old(state), params, Reached(params))
      ensures grads == StepGrads(hyper, params)
      ensures error.Some? <==> FirstSparse(params).Some?
    {
      grads := seq(|params|, i requires 0 <= i < |params| => params[i].grad);
      var slots := state;
      for i := 0 to |params|
        invariant state == old(state)
        invariant forall j :: 0 <= j < i ==> !params[j].grad.Sparse?
        invariant slots == StepState(hyper, state, params, i)
        invariant GradsAfter(hyper, params, grads, i)
      {
        StepStateNext(hyper, state, params, i);
        match params[i].grad {
          case NoGrad =>
            GradsAfterNext(hyper, params, grads, i);
          case Sparse =>
            assert FirstSparse(params) == Some(i);
            GradsAfterReached(hyper, params, grads);
            StepStateBounds(hyper, state, params, i);
            state := slots;
            return grads, Some(SparseGradient);
          case Dense(g) =>
            GradsAfterNext(hyper, params, grads, i);
            var decayed := Decay(g, params[i].data, hyper.weightDecay);
            grads := grads[i := Dense(decayed)];
            var slot := if i in slots then slots[i] else InitSlot(|params[i].data|, hyper.amsgrad);
            slots := slots[i := Advance(hyper, slot, decayed)];
        }
      }
      assert FirstSparse(params).None?;
      GradsAfterReached(hyper, params, grads);
      StepStateBounds(hyper, state, params, |params|);
      state := slots;
      error := None;
    }
  }

  /** `step` keeps every slot's invariant: the second moment stays
      non-negative and below the AMSGrad running max. */
  lemma {:induction false} StepStateBounds(h: Hyper, state: map<nat, Slot>, params: seq<Param>, count: nat)
    requires Validate(h).None? && count <= |params| && GradsFit(params) && StateFits(h, state, params)
    requires forall i :: i in state ==> SlotBounds(state[i])
    ensures forall i :: i in StepState(h, state, params, count) ==> SlotBounds(StepState(h, state, params, count)[i])
  {
    if count > 0 {
      var k := count - 1;
      StepStateBounds(h, state, params, k);
      StepStateNext(h, state, params, k);
      var prev := StepState(h, state, params, k);
      if params[k].grad.Dense? {
        var slot := if k in prev then prev[k] else InitSlot(|params[k].data|, h.amsgrad);
        AdvanceKeepsInvariants(h, slot, Decay(params[k].grad.values, params[k].data, h.weightDecay));
      }
    }
  }

  /** `step` never lowers the AMSGrad running maximum of a parameter that
      already had state: every entry is at least what it was before. */
  lemma {:induction false} StepStateMaxGrows(h: Hyper, state: map<nat, Slot>, params: seq<Param>, count: nat, i: nat)
    requires count <= |params| && GradsFit(params) && StateFits(h, state, params)
    requires i in state && state[i].maxExpAvgSq.Some?
    ensures i in StepState(h, state, params, count)
    ensures var after := StepState(h, state, params, count)[i];
      after.maxExpAvgSq.Some? && |after.maxExpAvgSq.value| == |state[i].maxExpAvgSq.value| &&
      forall j :: 0 <= j < |state[i].maxExpAvgSq.value| ==>
        after.maxExpAvgSq.value[j] >= state[i].maxExpAvgSq.value[j]
  {
    if count > 0 {
      var k := count - 1;
      StepStateMaxGrows(h, state, params, k, i);
      StepStateNext(h, state, params, k);
      var prev := StepState(h, state, params, k);
      if k == i && params[k].grad.Dense? {
        var g := Decay(params[k].grad.values, params[k].data, h.weightDecay);
        var next := Advance(h, prev[i], g);
        assert StepState(h, state, params, count)[i] == next;
        forall j | 0 <= j < |state[i].maxExpAvgSq.value|
          ensures next.maxExpAvgSq.value[j] >= state[i].maxExpAvgSq.value[j]
        {
          assert next.maxExpAvgSq.value[j] >= prev[i].maxExpAvgSq.value[j];
        }
      } else {
        assert StepState(h, state, params, count)[i] == prev[i];
      }
    }
  }

  /** Parameters without a gradient, and those after a sparse one, keep
      their state as it was. */
  lemma {:induction false} StepStateUntouched(h: Hyper, state: map<nat, Slot>, params: seq<Param>, count: nat, i: nat)
    requires count <= |params| && GradsFit(params) && StateFits(h, state, params)
    requires i < |params| && (params[i].grad.NoGrad? || i >= count)
    ensures i in StepState(h, state, params, count) <==> i in state
    ensures i in state ==> StepState(h, state, params, count)[i] == state[i]
  {
    if count > 0 {
      StepStateUntouched(h, state, params, count - 1, i);
    }
  }

  /** Every parameter with a dense gradient reached by `step` has its
      counter advanced by exactly one, starting from zero when its state
      was created by this call. */
  lemma {:induction false} StepStateCounts(h: Hyper, state: map<nat, Slot>, params: seq<Param>, count: nat, i: nat)
    requires count <= |params| && GradsFit(params) && StateFits(h, state, params)
    requires i < count && params[i].grad.Dense?
    ensures i in StepState(h, state, params, count)
    ensures StepState(h, state, params, count)[i].step == (if i in state then state[i].step else 0) + 1
  {
    if i < count - 1 {
      StepStateCounts(h, state, params, count - 1, i);
    } else {
      StepStateUntouched(h, state, params, count - 1, i);
    }
  }
}
