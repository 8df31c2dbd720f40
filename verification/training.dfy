/**
 * The integer schedule of `train`: which batch updates which network, the
 * global step counter, the per-epoch divisions that can fail, printing and
 * checkpointing, and resuming from a checkpoint. Network updates, losses
 * and timing are not part of it; a batch is recorded as an event.
 */
module Training {
  import opened Wrappers

  datatype Event =
    | Batch(epoch: int, step: int, generatorUpdate: bool)  // one optimizer step
    | Report(epoch: int, step: int)                        // the status line
    | Save(epoch: int, step: int)                          // `torch.save` of epoch and step

  /** A run ends normally or with an uncaught `ZeroDivisionError` in the
      given epoch, after the events that happened before it. */
  datatype Outcome = Finished(events: seq<Event>, step: int) | Crashed(events: seq<Event>, epoch: int)

  /** The settings `train` reads, with the two data loaders reduced to their
      number of batches. */
  datatype Schedule = Schedule(criticSteps: int, trainBatches: nat, testBatches: nat,
                               printEvery: int, saving: bool, saveEvery: int, maxEpochs: int)

  /** `len(DataLoader(d, batch_size))` with the default `drop_last=False`. */
  function BatchCount(size: nat, batchSize: nat): (r: nat)
    requires batchSize >= 1
    ensures r == 0 <==> size == 0
    ensures size <= r * batchSize
    ensures r * batchSize < size + batchSize
  {
    var r := (size + batchSize - 1) / batchSize;
    DivModUnique(size + batchSize - 1, batchSize, r, (size + batchSize - 1) % batchSize);
    r
  }

  /** `DataLoader` refuses a batch size below one. */
  datatype SetupError = InvalidBatchSize

  /** The schedule of a run on `rows` rows: `random_split` holds
      `test_set_size` rows out and each part is batched; a batch size below
      one raises before the first epoch. */
  function ScheduleOf(rows: nat, testSetSize: nat, batchSize: int, criticSteps: int,
                      printEvery: int, saving: bool, saveEvery: int, maxEpochs: int): (r: Result<Schedule, SetupError>)
    requires testSetSize <= rows
    ensures r.Failure? <==> batchSize < 1
    ensures r.Success? ==> (r.value.testBatches == 0 <==> testSetSize == 0)
    ensures r.Success? ==> (r.value.trainBatches == 0 <==> rows == testSetSize)
    ensures r.Success? ==> r.value.criticSteps == criticSteps && r.value.maxEpochs == maxEpochs
  {
    if batchSize < 1 then Failure(InvalidBatchSize)
    else
      Success(Schedule(criticSteps, BatchCount(rows - testSetSize, batchSize as nat), BatchCount(testSetSize, batchSize as nat),
                       printEvery, saving, saveEvery, maxEpochs))
  }

  // ---------------------------------------------------------------------
  // Division facts
  // ---------------------------------------------------------------------

  lemma MulMono(k: int, a: int, b: int)
    requires k > 0 && a <= b
    ensures k * a <= k * b
  {
  }

  /** Quotient and remainder are determined by `x == k * q + r`. */
  lemma DivModUnique(x: int, k: int, q: int, r: int)
    requires k > 0 && 0 <= r < k && x == k * q + r
    ensures x / k == q && x % k == r
  {
    var q', r' := x / k, x % k;
    assert x == k * q' + r';
    if q' > q {
      MulMono(k, q + 1, q');
    } else if q' < q {
      MulMono(k, q' + 1, q);
    }
  }

  /** Moving from x - 1 to x, the quotient grows by one exactly when x is a
      multiple of k. */
  lemma DivStep(x: int, k: int)
    requires k > 0
    ensures x / k - (x - 1) / k == if x % k == 0 then 1 else 0
  {
    var q, r := (x - 1) / k, (x - 1) % k;
    if r < k - 1 {
      DivModUnique(x, k, q, r + 1);
    } else {
      DivModUnique(x, k, q + 1, 0);
    }
  }

  // ---------------------------------------------------------------------
  // One epoch
  // ---------------------------------------------------------------------

  /** The training batches of one epoch, starting at global step `step`:
      the b-th one happens at step `step + b` and updates the generator
      exactly when that step is a multiple of `critic_steps`. */
  function Batches(k: int, epoch: int, step: int, count: nat): (evs: seq<Event>)
    requires k != 0
    ensures |evs| == count
    ensures forall b :: 0 <= b < count ==> evs[b] == Batch(epoch, step + b, (step + b) % k == 0)
  {
    if count == 0 then []
    else Batches(k, epoch, step, count - 1) + [Batch(epoch, step + count - 1, (step + count - 1) % k == 0)]
  }

  /** `n_batches` after the training loop: the critic updates among `count`
      batches from `step`. */
  function CriticCount(k: int, step: int, count: nat): (n: nat)
    requires k != 0
    ensures n <= count
  {
    if count == 0 then 0
    else CriticCount(k, step, count - 1) + (if (step + count - 1) % k == 0 then 0 else 1)
  }

  datatype EpochResult = EpochDone(events: seq<Event>, step: int) | EpochCrash(events: seq<Event>)

  /** One iteration of the epoch loop. `step % 0`, `WD_train /= 0`,
      `WD_test /= 0`, `epoch % 0` in the printing test, and `epoch % 0` in
      the saving test (reached only when saving) all raise. */
  function RunEpoch(s: Schedule, epoch: int, step: int): EpochResult
  {
    if s.criticSteps == 0 then EpochCrash([])
    else
      var batches := Batches(s.criticSteps, epoch, step, s.trainBatches);
      var after := step + s.trainBatches;
      if CriticCount(s.criticSteps, step, s.trainBatches) == 0 || s.testBatches == 0 || s.printEvery == 0 then
        EpochCrash(batches)
      else
        var reported := batches + (if epoch % s.printEvery == 0 then [Report(epoch, after)] else []);
        if !s.saving then EpochDone(reported, after)
        else if s.saveEvery == 0 then EpochCrash(reported)
        else EpochDone(reported + (if epoch % s.saveEvery == 0 then [Save(epoch, after)] else []), after)
  }

  function Prefix(evs: seq<Event>, o: Outcome): Outcome
  {
    match o
    case Finished(e, st) => Finished(evs + e, st)
    case Crashed(e, ep) => Crashed(evs + e, ep)
  }

  /** `for epoch in range(epoch, max_epochs)` from the given global step. */
  function Run(s: Schedule, epoch: int, step: int): Outcome
    decreases if epoch < s.maxEpochs then s.maxEpochs - epoch else 0
  {
    if epoch >= s.maxEpochs then Finished([], step)
    else
      match RunEpoch(s, epoch, step)
      case EpochCrash(evs) => Crashed(evs, epoch)
      case EpochDone(evs, st) => Prefix(evs, Run(s, epoch + 1, st))
  }

  /** Where `train` starts: epoch 0 at step 1, or the checkpoint's saved
      epoch and step. */
  function Start(checkpoint: Option<(int, int)>): (int, int)
  {
    match checkpoint
    case None => (0, 1)
    case Some(cp) => cp
  }

  lemma PrefixPrefix(a: seq<Event>, b: seq<Event>, o: Outcome)
    ensures Prefix(a, Prefix(b, o)) == Prefix(a + b, o)
  {
    match o
    case Finished(e, st) => assert a + (b + e) == (a + b) + e;
    case Crashed(e, ep) => assert a + (b + e) == (a + b) + e;
  }

  /** The training loop of one epoch: `count` batches from `step`,
      counting critic updates. */
  method TrainBatches(k: int, epoch: int, step: int, count: nat) returns (evs: seq<Event>, nBatches: nat, next: int)
    requires k != 0
    ensures evs == Batches(k, epoch, step, count)
    ensures nBatches == CriticCount(k, step, count)
    ensures next == step + count
  {
    evs, nBatches, next := [], 0, step;
    for b := 0 to count
      invariant evs == Batches(k, epoch, step, b)
      invariant nBatches == CriticCount(k, step, b)
      invariant next == step + b
    {
      var generatorUpdate := next % k == 0;
      evs := evs + [Batch(epoch, next, generatorUpdate)];
      if !generatorUpdate {
        nBatches := nBatches + 1;
      }
      next := next + 1;
    }
  }

  /** One iteration of `train`'s epoch loop. */
  method TrainEpoch(s: Schedule, epoch: int, step: int) returns (r: EpochResult)
    ensures r == RunEpoch(s, epoch, step)
  {
    if s.criticSteps == 0 {
      return EpochCrash([]);  // step % 0, or WD_train /= 0 without batches
    }
    var evs, nBatches, next := TrainBatches(s.criticSteps, epoch, step, s.trainBatches);
    if nBatches == 0 || s.testBatches == 0 || s.printEvery == 0 {
      return EpochCrash(evs);  // WD_train /= 0, WD_test /= 0 or epoch % 0
    }
    if epoch % s.printEvery == 0 {
      evs := evs + [Report(epoch, next)];
    }
    if s.saving {
      if s.saveEvery == 0 {
        return EpochCrash(evs);  // epoch % 0
      }
      if epoch % s.saveEvery == 0 {
        evs := evs + [Save(epoch, next)];
      }
    }
    return EpochDone(evs, next);
  }

  /** `train`'s loop over epochs, from the start or from a checkpoint. */
  method Train(s: Schedule, checkpoint: Option<(int, int)>) returns (o: Outcome)
    ensures o == Run(s, Start(checkpoint).0, Start(checkpoint).1)
  {
    var epoch, step := Start(checkpoint).0, Start(checkpoint).1;
    var events: seq<Event> := [];
    while epoch < s.maxEpochs
      invariant Run(s, Start(checkpoint).0, Start(checkpoint).1) == Prefix(events, Run(s, epoch, step))
      decreases s.maxEpochs - epoch
    {
      var r := TrainEpoch(s, epoch, step);
      match r {
        case EpochCrash(evs) =>
          return Crashed(events + evs, epoch);
        case EpochDone(evs, next) =>
          PrefixPrefix(events, evs, Run(s, epoch + 1, next));
          events, step := events + evs, next;
      }
      epoch := epoch + 1;
    }
    assert events + [] == events;
    return Finished(events, step);
  }

  // ---------------------------------------------------------------------
  // Properties of the schedule
  // ---------------------------------------------------------------------

  /** From a fresh start, exactly every `critic_steps`-th batch updates the
      generator: of the first N batches, N / k do and the rest count as
      critic batches. */
  lemma {:induction false} CriticCountFromStart(k: int, count: nat)
    requires k > 0
    ensures CriticCount(k, 1, count) == count - count / k
  {
    if count > 0 {
      CriticCountFromStart(k, count - 1);
      DivStep(count, k);
    }
  }

  /** With one critic step per generator step every step is a generator
      update, so no batch counts toward `n_batches`. */
  lemma {:induction false} SingleCriticStepCountsNothing(k: int, step: int, count: nat)
    requires k == 1 || k == -1
    ensures CriticCount(k, step, count) == 0
  {
    if count > 0 {
      SingleCriticStepCountsNothing(k, step, count - 1);
    }
  }

  /** With at least two critic steps, any two consecutive batches include a
      critic update. */
  lemma {:induction false} TwoBatchesHaveCriticUpdate(k: int, step: int, count: nat)
    requires k >= 2 && count >= 2
    ensures CriticCount(k, step, count) >= 1
  {
    if count > 2 {
      TwoBatchesHaveCriticUpdate(k, step, count - 1);
    } else if step % k == 0 {
      DivModUnique(step + 1, k, step / k, 1);
    }
  }

  /** An epoch that starts inside the range and has no critic batch ends
      the whole run with `ZeroDivisionError`, after its batches. */
  lemma NoCriticBatchCrashes(s: Schedule, epoch: int, step: int)
    requires epoch < s.maxEpochs && s.criticSteps != 0
    requires CriticCount(s.criticSteps, step, s.trainBatches) == 0
    ensures Run(s, epoch, step) == Crashed(Batches(s.criticSteps, epoch, step, s.trainBatches), epoch)
  {
  }

  /** In particular `critic_steps = 1` fails in the first epoch. */
  lemma SingleCriticStepCrashes(s: Schedule, epoch: int, step: int)
    requires epoch < s.maxEpochs && s.criticSteps == 1
    ensures Run(s, epoch, step).Crashed? && Run(s, epoch, step).epoch == epoch
  {
    SingleCriticStepCountsNothing(s.criticSteps, step, s.trainBatches);
  }

  /** The steps of the batch events, in order. */
  function BatchSteps(evs: seq<Event>): seq<int>
  {
    if evs == [] then []
    else (if evs[0].Batch? then [evs[0].step] else []) + BatchSteps(evs[1..])
  }

  lemma {:induction false} BatchStepsAppend(a: seq<Event>, b: seq<Event>)
    ensures BatchSteps(a + b) == BatchSteps(a) + BatchSteps(b)
  {
    if a == [] {
      assert a + b == b;
    } else {
      assert (a + b)[0] == a[0];
      assert (a + b)[1..] == a[1..] + b;
      BatchStepsAppend(a[1..], b);
    }
  }

  function Consecutive(from: int, count: nat): (r: seq<int>)
    ensures |r| == count && forall i :: 0 <= i < count ==> r[i] == from + i
  {
    seq(count, i => from + i)
  }

  lemma {:induction false} BatchStepsOfBatches(k: int, epoch: int, step: int, count: nat)
    requires k != 0
    ensures BatchSteps(Batches(k, epoch, step, count)) == Consecutive(step, count)
  {
    if count > 0 {
      var init := Batches(k, epoch, step, count - 1);
      var last := Batch(epoch, step + count - 1, (step + count - 1) % k == 0);
      BatchStepsOfBatches(k, epoch, step, count - 1);
      BatchStepsAppend(init, [last]);
      assert BatchSteps([last]) == [step + count - 1];
    }
  }

  /** A completed epoch moves the global step by its number of training
      batches, and its batch events carry consecutive steps. */
  lemma EpochSteps(s: Schedule, epoch: int, step: int)
    ensures RunEpoch(s, epoch, step).EpochDone? ==> RunEpoch(s, epoch, step).step == step + s.trainBatches
    ensures BatchSteps(RunEpoch(s, epoch, step).events) ==
      if RunEpoch(s, epoch, step).EpochCrash? && s.criticSteps == 0 then [] else Consecutive(step, s.trainBatches)
  {
    if s.criticSteps != 0 {
      var batches := Batches(s.criticSteps, epoch, step, s.trainBatches);
      var after := step + s.trainBatches;
      BatchStepsOfBatches(s.criticSteps, epoch, step, s.trainBatches);
      var report: seq<Event> := if s.printEvery != 0 && epoch % s.printEvery == 0 then [Report(epoch, after)] else [];
      var save: seq<Event> := if s.saveEvery != 0 && epoch % s.saveEvery == 0 then [Save(epoch, after)] else [];
      BatchStepsAppend(batches, report);
      BatchStepsAppend(batches + report, save);
      assert BatchSteps(report) == [] && BatchSteps(save) == [];
    }
  }

  /** Over a whole run the global step grows by exactly one per batch: the
      batch events carry the steps `step, step + 1, …` with no gap or
      repetition, and a finished run ends one past the last of them. */
  lemma {:induction false} RunSteps(s: Schedule, epoch: int, step: int)
    ensures BatchSteps(Run(s, epoch, step).events) == Consecutive(step, |BatchSteps(Run(s, epoch, step).events)|)
    ensures Run(s, epoch, step).Finished? ==>
      Run(s, epoch, step).step == step + |BatchSteps(Run(s, epoch, step).events)|
    decreases if epoch < s.maxEpochs then s.maxEpochs - epoch else 0
  {
    if epoch < s.maxEpochs {
      EpochSteps(s, epoch, step);
      match RunEpoch(s, epoch, step)
      case EpochCrash(evs) =>
      case EpochDone(evs, st) =>
        var rest := Run(s, epoch + 1, st);
        RunSteps(s, epoch + 1, st);
        BatchStepsAppend(evs, rest.events);
        assert Run(s, epoch, step).events == evs + rest.events;
    }
  }

  /** Every event of a run lies in `[epoch, max_epochs)`; each batch updates
      the generator iff its step is a multiple of `critic_steps`; status
      lines come at multiples of `print_every` and checkpoints only when
      saving, at multiples of `save_every`, and both only after an epoch
      whose divisions succeeded. */
  predicate WellPlaced(s: Schedule, from: int, ev: Event)
  {
    && from <= ev.epoch < s.maxEpochs
    && (ev.Batch? ==> s.criticSteps != 0 && (ev.generatorUpdate <==> ev.step % s.criticSteps == 0))
    && (ev.Report? ==> s.printEvery != 0 && ev.epoch % s.printEvery == 0)
    && (ev.Save? ==> s.saving && s.saveEvery != 0 && ev.epoch % s.saveEvery == 0)
    && (!ev.Batch? ==> s.criticSteps != 0 && s.trainBatches > 0 && s.testBatches > 0)
  }

  lemma EpochEventsWellPlaced(s: Schedule, epoch: int, step: int)
    requires epoch < s.maxEpochs
    ensures forall ev :: ev in RunEpoch(s, epoch, step).events ==> WellPlaced(s, epoch, ev) && ev.epoch == epoch
  {
    if s.criticSteps != 0 {
      var batches := Batches(s.criticSteps, epoch, step, s.trainBatches);
      forall ev | ev in batches ensures WellPlaced(s, epoch, ev) && ev.epoch == epoch {
        var b :| 0 <= b < |batches| && batches[b] == ev;
      }
    }
  }

  lemma {:induction false} RunEventsWellPlaced(s: Schedule, epoch: int, step: int)
    ensures forall ev :: ev in Run(s, epoch, step).events ==> WellPlaced(s, epoch, ev)
    decreases if epoch < s.maxEpochs then s.maxEpochs - epoch else 0
  {
    if epoch < s.maxEpochs {
      EpochEventsWellPlaced(s, epoch, step);
      match RunEpoch(s, epoch, step)
      case EpochCrash(evs) =>
      case EpochDone(evs, st) =>
        RunEventsWellPlaced(s, epoch + 1, st);
        assert Run(s, epoch, step).events == evs + Run(s, epoch + 1, st).events;
    }
  }

  /** Resuming from a checkpoint written in epoch e starts again at epoch e
      itself, which the saving run had already completed: its first batch
      is at the saved step, in the saved epoch. */
  lemma ResumeRepeatsSavedEpoch(s: Schedule, epoch: int, step: int, saved: int, savedStep: int)
    requires Save(saved, savedStep) in Run(s, epoch, step).events
    ensures epoch <= saved < s.maxEpochs
    ensures var resumed := Run(s, Start(Some((saved, savedStep))).0, Start(Some((saved, savedStep))).1);
      resumed.events != [] && resumed.events[0] == Batch(saved, savedStep, savedStep % s.criticSteps == 0)
  {
    RunEventsWellPlaced(s, epoch, step);
    assert WellPlaced(s, epoch, Save(saved, savedStep));
    var resumed := Run(s, saved, savedStep);
    var batches := Batches(s.criticSteps, saved, savedStep, s.trainBatches);
    assert RunEpoch(s, saved, savedStep).events[0] == batches[0];
  }
}
