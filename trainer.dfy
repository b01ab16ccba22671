/** Training control: the early-stopping state machine, the epoch loop with
    its history, best-model tracking and checkpoint writes, and the order of
    the calls made for every training batch. Network numerics are not modelled:
    each epoch's losses and metrics are inputs. */
module Training {
  import opened Wrappers
  import opened Counting
  import opened Strings

  // ---------------------------------------------------------------------------
  // Early stopping
  // ---------------------------------------------------------------------------

  datatype EsConfig = EsConfig(patience: int, minDelta: real, mode: string)

  /** `counter`, `best_value` (None before the first call) and `should_stop`. */
  datatype EsState = EsState(counter: int, best: Option<real>, shouldStop: bool)

  const InitialEs: EsState := EsState(0, None, false)

  /** Improvement is by more than `min_delta`, upwards in max mode and
      downwards in any other mode. */
  predicate Improved(cfg: EsConfig, best: real, value: real) {
    if cfg.mode == "max" then value > best + cfg.minDelta else value < best - cfg.minDelta
  }

  /** One call of `EarlyStopping.__call__`: the new state and the returned flag. */
  function EsStep(cfg: EsConfig, s: EsState, value: real): (EsState, bool)
  {
    if s.best.None? then (EsState(s.counter, Some(value), s.shouldStop), false)
    else if Improved(cfg, s.best.value, value) then (EsState(0, Some(value), s.shouldStop), s.shouldStop)
    else
      var counter := s.counter + 1;
      var stop := s.shouldStop || counter >= cfg.patience;
      (EsState(counter, s.best, stop), stop)
  }

  /** The first call records the value and returns False; afterwards an
      improvement resets the counter, anything else counts one more call and
      stops once the counter reaches `patience`; the returned flag is the stop flag. */
  lemma EsStepSpec(cfg: EsConfig, s: EsState, value: real)
    ensures var r := EsStep(cfg, s, value);
      && r.0.best.Some?
      && (s.best.None? ==> r == (EsState(s.counter, Some(value), s.shouldStop), false))
      && (s.best.Some? ==> r.1 == r.0.shouldStop && (s.shouldStop ==> r.1))
      && (s.best.Some? && Improved(cfg, s.best.value, value) ==> r.0 == EsState(0, Some(value), s.shouldStop))
      && (s.best.Some? && !Improved(cfg, s.best.value, value) ==>
            r.0.counter == s.counter + 1 && r.0.best == s.best
            && (r.0.shouldStop <==> s.shouldStop || s.counter + 1 >= cfg.patience))
  {
  }

  /** The state after a sequence of calls, and the flag each call returned. */
  function EsRun(cfg: EsConfig, values: seq<real>): (r: (EsState, seq<bool>))
    ensures |r.1| == |values|
  {
    if values == [] then (InitialEs, [])
    else
      var (s, flags) := EsRun(cfg, values[..|values| - 1]);
      var (s', flag) := EsStep(cfg, s, values[|values| - 1]);
      (s', flags + [flag])
  }

  /** Once a call has returned True, the stop flag is set for good: every later
      call returns True too, even after an improvement. */
  lemma {:induction false} EsStopSticky(cfg: EsConfig, values: seq<real>)
    ensures var (s, flags) := EsRun(cfg, values);
      && (s.shouldStop ==> s.best.Some?)
      && ((exists i :: 0 <= i < |flags| && flags[i]) ==> s.shouldStop)
      && (forall i, j :: 0 <= i <= j < |flags| && flags[i] ==> flags[j])
  {
    if values != [] {
      var prefix := values[..|values| - 1];
      EsStopSticky(cfg, prefix);
      var (s, flags) := EsRun(cfg, prefix);
      var (s', flag) := EsStep(cfg, s, values[|values| - 1]);
      var all := flags + [flag];
      assert EsRun(cfg, values) == (s', all);
      forall i | 0 <= i < |all| && all[i] ensures s'.shouldStop {
        if i < |flags| {
          assert flags[i];
        }
      }
      forall i, j | 0 <= i <= j < |all| && all[i] ensures all[j] {
        if j < |flags| {
          assert flags[i] && flags[j] == all[j];
        } else if i < |flags| {
          assert flags[i];
        }
      }
    }
  }

  /** The first call only records the value: it returns False and leaves the
      counter at 0. */
  lemma EsFirstCall(cfg: EsConfig, value: real)
    ensures EsRun(cfg, [value]) == (EsState(0, Some(value), false), [false])
  {
    assert [value][..0] == [];
    assert EsRun(cfg, []) == (InitialEs, []);
    assert EsStep(cfg, InitialEs, value) == (EsState(0, Some(value), false), false);
    assert [] + [false] == [false];
  }

  /** Four equal values with patience 3: the second, third and fourth calls do
      not improve, and the fourth is the one that stops. */
  lemma EsPlateauExample()
    ensures EsRun(EsConfig(3, 0.001, "max"), [0.5, 0.5, 0.5, 0.5]).1 == [false, false, false, true]
  {
    var cfg := EsConfig(3, 0.001, "max");
    var v := [0.5, 0.5, 0.5, 0.5];
    assert v[..3] == [0.5, 0.5, 0.5] && v[..3][..2] == [0.5, 0.5] && v[..3][..2][..1] == [0.5];
    EsFirstCall(cfg, 0.5);
    assert EsRun(cfg, v[..3][..2]).0 == EsState(1, Some(0.5), false);
    assert EsRun(cfg, v[..3]).0 == EsState(2, Some(0.5), false);
  }

  /** `EarlyStopping`: the configuration is fixed at construction; each call
      updates the counter, the best value and the stop flag. */
  class EarlyStopping {
    const patience: int
    const minDelta: real
    const mode: string
    var counter: int
    var bestValue: Option<real>
    var shouldStop: bool

    function Config(): EsConfig {
      EsConfig(patience, minDelta, mode)
    }

    function State(): EsState
      reads this
    {
      EsState(counter, bestValue, shouldStop)
    }

    constructor(patience: int, minDelta: real, mode: string)
      ensures Config() == EsConfig(patience, minDelta, mode)
      ensures State() == InitialEs
    {
      this.patience := patience;
      this.minDelta := minDelta;
      this.mode := mode;
      counter := 0;
      bestValue := None;
      shouldStop := false;
    }

    /** `__call__`. */
    method Call(value: real) returns (stop: bool)
      modifies this
      ensures (State(), stop) == EsStep(Config(), old(State()), value)
    {
      if bestValue.None? {
        bestValue := Some(value);
        return false;
      }
      var improved := if mode == "max" then value > bestValue.value + minDelta
                      else value < bestValue.value - minDelta;
      if improved {
        bestValue := Some(value);
        counter := 0;
      } else {
        counter := counter + 1;
        if counter >= patience {
          shouldStop := true;
        }
      }
      stop := shouldStop;
    }
  }

  // ---------------------------------------------------------------------------
  // One training epoch
  // ---------------------------------------------------------------------------

  /** The calls made for one batch, in order. */
  datatype Event = ZeroGrad | Forward | ScaledBackward | Unscale | ClipGradNorm | OptimizerStep | ScalerUpdate

  const BatchEvents: seq<Event> := [ZeroGrad, Forward, ScaledBackward, Unscale, ClipGradNorm, OptimizerStep, ScalerUpdate]

  /** A batch as the loop sees it: the loss, and the predicted and true class
      of each of its images. */
  datatype Batch = Batch(loss: real, preds: seq<int>, labels: seq<int>)

  predicate WellShaped(batches: seq<Batch>) {
    forall k :: 0 <= k < |batches| ==> |batches[k].preds| == |batches[k].labels|
  }

  datatype EpochError = ZeroDivision

  function SumLoss(bs: seq<Batch>): real {
    if bs == [] then 0.0 else SumLoss(bs[..|bs| - 1]) + bs[|bs| - 1].loss
  }

  function Correct(bs: seq<Batch>): nat
    requires WellShaped(bs)
  {
    if bs == [] then 0
    else Correct(bs[..|bs| - 1]) + Matches(bs[|bs| - 1].preds, bs[|bs| - 1].labels)
  }

  function Total(bs: seq<Batch>): nat {
    if bs == [] then 0 else Total(bs[..|bs| - 1]) + |bs[|bs| - 1].labels|
  }

  /** The calls made for `n` batches. */
  function Trace(n: nat): (t: seq<Event>)
    ensures |t| == 7 * n
  {
    if n == 0 then [] else Trace(n - 1) + BatchEvents
  }

  /** `_train_one_epoch` as a value: the average loss per batch and the
      accuracy, or the ZeroDivisionError raised for an empty loader or for a
      first batch without images (the progress display divides by the running
      total after each batch). */
  function EpochAverages(bs: seq<Batch>): Result<(real, real), EpochError>
    requires WellShaped(bs)
  {
    if bs == [] || bs[0].labels == [] then Err(ZeroDivision)
    else
      TotalPositive(bs);
      Ok((SumLoss(bs) / |bs| as real, Correct(bs) as real / Total(bs) as real))
  }

  /** The calls `_train_one_epoch` makes before it returns or raises. */
  function EpochTrace(bs: seq<Batch>): seq<Event> {
    if bs == [] then [] else if bs[0].labels == [] then Trace(1) else Trace(|bs|)
  }

  /** `_train_one_epoch`: the per-batch calls, the running loss, correct and
      total counters, and the two averages. */
  method TrainOneEpoch(batches: seq<Batch>) returns (r: Result<(real, real), EpochError>, events: seq<Event>)
    requires WellShaped(batches)
    ensures r == EpochAverages(batches)
    ensures events == EpochTrace(batches)
  {
    var totalLoss := 0.0;
    var correct := 0;
    var total := 0;
    events := [];
    var i := 0;
    while i < |batches|
      invariant 0 <= i <= |batches|
      invariant totalLoss == SumLoss(batches[..i])
      invariant correct == Correct(batches[..i]) && total == Total(batches[..i])
      invariant correct <= total
      invariant events == Trace(i)
      invariant i > 0 ==> total > 0 && batches[0].labels != []
    {
      var b := batches[i];
      assert batches[..i + 1][..i] == batches[..i] && batches[..i + 1][i] == b;
      events := events + [ZeroGrad, Forward, ScaledBackward, Unscale, ClipGradNorm, OptimizerStep, ScalerUpdate];
      totalLoss := totalLoss + b.loss;
      correct := correct + Matches(b.preds, b.labels);
      total := total + |b.labels|;
      if total == 0 {
        assert i == 0;
        return Err(ZeroDivision), events;
      }
      i := i + 1;
    }
    assert batches[..|batches|] == batches;
    if |batches| == 0 {
      return Err(ZeroDivision), events;
    }
    r := Ok((totalLoss / |batches| as real, correct as real / total as real));
  }

  lemma {:induction false} CorrectAtMostTotal(bs: seq<Batch>)
    requires WellShaped(bs)
    ensures Correct(bs) <= Total(bs)
  {
    if bs != [] {
      CorrectAtMostTotal(bs[..|bs| - 1]);
    }
  }

  /** The epoch accuracy is a fraction between 0 and 1. */
  lemma EpochAccuracyBounds(bs: seq<Batch>)
    requires WellShaped(bs)
    requires EpochAverages(bs).Ok?
    ensures 0.0 <= EpochAverages(bs).value.1 <= 1.0
  {
    CorrectAtMostTotal(bs);
    TotalPositive(bs);
    FractionBounds(Correct(bs), Total(bs));
  }

  lemma {:induction false} TotalPositive(bs: seq<Batch>)
    requires bs != [] && bs[0].labels != []
    ensures Total(bs) > 0
  {
    if |bs| > 1 {
      var p := bs[..|bs| - 1];
      assert p[0] == bs[0];
      TotalPositive(p);
    }
  }

  /** The trace repeats the seven calls, batch after batch. */
  lemma {:induction false} TraceAt(n: nat, i: nat)
    requires i < 7 * n
    ensures Trace(n)[i] == BatchEvents[i % 7]
  {
    if i < 7 * (n - 1) {
      TraceAt(n - 1, i);
    } else {
      assert Trace(n)[i] == BatchEvents[i - 7 * (n - 1)];
      assert i % 7 == i - 7 * (n - 1);
    }
  }

  /** Gradients are always unscaled right before clipping, and the optimizer
      steps right after clipping; every batch starts by zeroing gradients. */
  lemma TraceOrder(n: nat)
    ensures forall i :: 0 <= i < |Trace(n)| && Trace(n)[i] == ClipGradNorm ==>
      1 <= i < |Trace(n)| - 1 && Trace(n)[i - 1] == Unscale && Trace(n)[i + 1] == OptimizerStep
    ensures forall b :: 0 <= b < n ==> Trace(n)[7 * b] == ZeroGrad
  {
    forall i | 0 <= i < |Trace(n)| && Trace(n)[i] == ClipGradNorm
      ensures 1 <= i < |Trace(n)| - 1 && Trace(n)[i - 1] == Unscale && Trace(n)[i + 1] == OptimizerStep
    {
      TraceAt(n, i);
      assert i % 7 == 4;
      TraceAt(n, i - 1);
      TraceAt(n, i + 1);
    }
    forall b | 0 <= b < n ensures Trace(n)[7 * b] == ZeroGrad {
      TraceAt(n, 7 * b);
    }
  }

  // ---------------------------------------------------------------------------
  // The epoch loop
  // ---------------------------------------------------------------------------

  /** What one epoch of training and validation produced. */
  datatype EpochResult = EpochResult(
    trainLoss: real, trainAcc: real, valLoss: real, balancedAcc: real, melSensitivity: real)

  /** The part of a checkpoint the model keeps: its epoch and its two headline metrics. */
  datatype Checkpoint = Checkpoint(epoch: nat, valBalancedAcc: real, valMelSensitivity: real)

  /** One `torch.save` call: the file and what was written to it. */
  datatype Save = Save(path: string, checkpoint: Checkpoint)

  datatype History = History(
    trainLoss: seq<real>, valLoss: seq<real>, trainAcc: seq<real>,
    valBalancedAcc: seq<real>, valMelSensitivity: seq<real>, lr: seq<real>)

  const EmptyHistory: History := History([], [], [], [], [], [])

  /** The trainer's configuration. */
  datatype Setup = Setup(numEpochs: int, patience: int, checkpointDir: string, modelName: string)

  /** The trainer's early stopping: the configured patience, the default
      `min_delta`, max mode. */
  function EsConfigOf(setup: Setup): EsConfig {
    EsConfig(setup.patience, 0.001, "max")
  }

  /** The state the epoch loop changes. */
  datatype TrainState = TrainState(history: History, bestValBalancedAcc: real, saves: seq<Save>, es: EsState)

  const InitialState: TrainState := TrainState(EmptyHistory, 0.0, [], InitialEs)

  function LatestPath(setup: Setup): string {
    JoinPath(setup.checkpointDir, setup.modelName + "_latest.pth")
  }

  function BestPath(setup: Setup): string {
    JoinPath(setup.checkpointDir, setup.modelName + "_best.pth")
  }

  lemma PathsDiffer(setup: Setup)
    ensures LatestPath(setup) != BestPath(setup)
  {
    assert |LatestPath(setup)| != |BestPath(setup)|;
  }

  /** `_save_checkpoint`: the latest file always, the best file only for a new best. */
  function SaveCheckpoint(setup: Setup, saves: seq<Save>, c: Checkpoint, isBest: bool): seq<Save> {
    saves + [Save(LatestPath(setup), c)] + (if isBest then [Save(BestPath(setup), c)] else [])
  }

  /** The six history appends of one epoch. */
  function AppendEpoch(h: History, r: EpochResult, lr: real): History {
    History(h.trainLoss + [r.trainLoss], h.valLoss + [r.valLoss], h.trainAcc + [r.trainAcc],
            h.valBalancedAcc + [r.balancedAcc], h.valMelSensitivity + [r.melSensitivity], h.lr + [lr])
  }

  /** The balanced accuracies of the first `e` epochs. */
  function Accs(outcome: nat -> EpochResult, e: nat): (a: seq<real>)
    ensures |a| == e && forall k :: 0 <= k < e ==> a[k] == outcome(k).balancedAcc
  {
    seq(e, k requires 0 <= k < e => outcome(k).balancedAcc)
  }

  lemma AccsPrefix(outcome: nat -> EpochResult, e: nat)
    ensures Accs(outcome, e + 1)[..e] == Accs(outcome, e)
    ensures Accs(outcome, e + 1) == Accs(outcome, e) + [outcome(e).balancedAcc]
  {
    assert Accs(outcome, e + 1)[..e] == Accs(outcome, e);
  }

  /** The largest of 0.0 and the given values: the running best starts at 0.0. */
  function MaxFromZero(a: seq<real>): (m: real)
    ensures m >= 0.0 && forall k :: 0 <= k < |a| ==> a[k] <= m
    ensures m == 0.0 || exists k :: 0 <= k < |a| && a[k] == m
  {
    if a == [] then 0.0
    else
      var p := MaxFromZero(a[..|a| - 1]);
      var m := if a[|a| - 1] > p then a[|a| - 1] else p;
      MaxFromZeroPrefix(a, p);
      m
  }

  lemma MaxFromZeroPrefix(a: seq<real>, p: real)
    requires a != [] && (p == 0.0 || exists k :: 0 <= k < |a| - 1 && a[k] == p)
    ensures p == 0.0 || exists k :: 0 <= k < |a| && a[k] == p
  {
  }

  /** Whether epoch `e` is a new best: above the best of 0.0 and the earlier epochs. */
  predicate IsBestAt(outcome: nat -> EpochResult, e: nat) {
    outcome(e).balancedAcc > MaxFromZero(Accs(outcome, e))
  }

  /** The checkpoint epoch `k` writes. */
  function CheckpointOf(outcome: nat -> EpochResult, k: nat): Checkpoint {
    Checkpoint(k, outcome(k).balancedAcc, outcome(k).melSensitivity)
  }

  /** The history after `e` epochs: six lists of length `e` whose entry `k`
      is epoch `k`'s value; the learning rate entry is the rate read before
      the scheduler sees epoch `k`'s balanced accuracy, `lrOf` giving the
      rate the optimizer holds once the scheduler has seen a sequence of
      balanced accuracies. */
  function HistoryOf(outcome: nat -> EpochResult, lrOf: seq<real> -> real, e: nat): History {
    History(
      seq(e, k requires 0 <= k < e => outcome(k).trainLoss),
      seq(e, k requires 0 <= k < e => outcome(k).valLoss),
      seq(e, k requires 0 <= k < e => outcome(k).trainAcc),
      Accs(outcome, e),
      seq(e, k requires 0 <= k < e => outcome(k).melSensitivity),
      seq(e, k requires 0 <= k < e => lrOf(Accs(outcome, k))))
  }

  /** An epoch's six appends extend the history of the earlier epochs by
      that epoch's entries, and the empty history is that of zero epochs. */
  lemma HistoryStep(outcome: nat -> EpochResult, lrOf: seq<real> -> real, e: nat)
    ensures HistoryOf(outcome, lrOf, 0) == EmptyHistory
    ensures HistoryOf(outcome, lrOf, e + 1) == AppendEpoch(HistoryOf(outcome, lrOf, e), outcome(e), lrOf(Accs(outcome, e)))
  {
    AccsPrefix(outcome, e);
    var h, h' := HistoryOf(outcome, lrOf, e), HistoryOf(outcome, lrOf, e + 1);
    var r := outcome(e);
    assert h'.trainLoss == h.trainLoss + [r.trainLoss];
    assert h'.valLoss == h.valLoss + [r.valLoss];
    assert h'.trainAcc == h.trainAcc + [r.trainAcc];
    assert h'.valMelSensitivity == h.valMelSensitivity + [r.melSensitivity];
    assert h'.lr == h.lr + [lrOf(Accs(outcome, e))];
  }

  /** The checkpoint writes of the first `e` epochs. */
  function SavesOf(setup: Setup, outcome: nat -> EpochResult, e: nat): seq<Save> {
    SavesFrom(setup, outcome, BestFlags(outcome, e))
  }

  /** Which of the first `e` epochs were new bests. */
  function BestFlags(outcome: nat -> EpochResult, e: nat): (f: seq<bool>)
    ensures |f| == e && forall k :: 0 <= k < e ==> f[k] == IsBestAt(outcome, k)
  {
    seq(e, k requires 0 <= k < e => IsBestAt(outcome, k))
  }

  /** The checkpoint writes of the epochs before `|flags|`, `flags` saying
      which of them were new bests. */
  function SavesFrom(setup: Setup, outcome: nat -> EpochResult, flags: seq<bool>): seq<Save> {
    if flags == [] then []
    else
      var e := |flags| - 1;
      SaveCheckpoint(setup, SavesFrom(setup, outcome, flags[..e]), CheckpointOf(outcome, e), flags[e])
  }

  /** The early-stopping state after the first `e` epochs. */
  function EsOf(setup: Setup, outcome: nat -> EpochResult, e: nat): EsState {
    EsRun(EsConfigOf(setup), Accs(outcome, e)).0
  }

  /** The state after `e` epochs, `outcome` giving what each epoch produces. */
  function StateAfter(setup: Setup, outcome: nat -> EpochResult, lrOf: seq<real> -> real, e: nat): TrainState {
    TrainState(HistoryOf(outcome, lrOf, e), MaxFromZero(Accs(outcome, e)), SavesOf(setup, outcome, e), EsOf(setup, outcome, e))
  }

  /** Whether early stopping fires in epoch `e`. */
  function StopsAt(setup: Setup, outcome: nat -> EpochResult, e: nat): bool {
    EsStep(EsConfigOf(setup), EsOf(setup, outcome, e), outcome(e).balancedAcc).1
  }

  /** The number of epochs run when the loop is at epoch `e`. */
  function EpochsRun(setup: Setup, outcome: nat -> EpochResult, e: nat): nat
    decreases setup.numEpochs - e
  {
    if e >= setup.numEpochs then e
    else if StopsAt(setup, outcome, e) then e + 1
    else EpochsRun(setup, outcome, e + 1)
  }

  /** One epoch moves the best of 0.0 and the balanced accuracies to the
      epoch's value exactly when it is a new best. */
  lemma BestStep(outcome: nat -> EpochResult, e: nat)
    ensures MaxFromZero(Accs(outcome, e + 1)) ==
      (if IsBestAt(outcome, e) then outcome(e).balancedAcc else MaxFromZero(Accs(outcome, e)))
  {
    AccsPrefix(outcome, e);
  }

  lemma EsOfStep(setup: Setup, outcome: nat -> EpochResult, e: nat)
    ensures EsOf(setup, outcome, e + 1) ==
      EsStep(EsConfigOf(setup), EsOf(setup, outcome, e), outcome(e).balancedAcc).0
  {
    AccsPrefix(outcome, e);
  }

  lemma SavesOfStep(setup: Setup, outcome: nat -> EpochResult, e: nat)
    ensures SavesOf(setup, outcome, e + 1) ==
      SaveCheckpoint(setup, SavesOf(setup, outcome, e), CheckpointOf(outcome, e), IsBestAt(outcome, e))
  {
    assert BestFlags(outcome, e + 1)[..e] == BestFlags(outcome, e);
  }

  /** One pass of the epoch loop's body on the state: history appends, the
      best-so-far update, the checkpoint writes and the early-stopping call. */
  function NextState(setup: Setup, st: TrainState, e: nat, r: EpochResult, lr: real): TrainState {
    var isBest := r.balancedAcc > st.bestValBalancedAcc;
    TrainState(
      AppendEpoch(st.history, r, lr),
      if isBest then r.balancedAcc else st.bestValBalancedAcc,
      SaveCheckpoint(setup, st.saves, Checkpoint(e, r.balancedAcc, r.melSensitivity), isBest),
      EsStep(EsConfigOf(setup), st.es, r.balancedAcc).0)
  }

  lemma StateStep(setup: Setup, outcome: nat -> EpochResult, lrOf: seq<real> -> real, e: nat)
    ensures StateAfter(setup, outcome, lrOf, e + 1) ==
      NextState(setup, StateAfter(setup, outcome, lrOf, e), e, outcome(e), lrOf(Accs(outcome, e)))
  {
    HistoryStep(outcome, lrOf, e);
    BestStep(outcome, e);
    EsOfStep(setup, outcome, e);
    SavesOfStep(setup, outcome, e);
  }

  /** `Trainer`: the configuration, the early stopping object, the history,
      the best balanced accuracy so far and the checkpoint files written. */
  class Trainer {
    const setup: Setup
    const earlyStopping: EarlyStopping
    var history: History
    var bestValBalancedAcc: real
    var saves: seq<Save>

    ghost predicate Valid()
      reads this
    {
      earlyStopping.Config() == EsConfigOf(setup)
    }

    function State(): TrainState
      reads this, earlyStopping
    {
      TrainState(history, bestValBalancedAcc, saves, earlyStopping.State())
    }

    constructor(setup: Setup)
      ensures this.setup == setup && Valid() && State() == InitialState
    {
      this.setup := setup;
      earlyStopping := new EarlyStopping(setup.patience, 0.001, "max");
      history := EmptyHistory;
      bestValBalancedAcc := 0.0;
      saves := [];
    }

    /** `train` on a fresh trainer: at most `num_epochs` epochs, leaving the
        loop right after the epoch in which early stopping fires. */
    method Train(outcome: nat -> EpochResult, lrOf: seq<real> -> real) returns (h: History)
      requires Valid() && State() == InitialState
      modifies this, earlyStopping
      ensures Valid()
      ensures State() == StateAfter(setup, outcome, lrOf, EpochsRun(setup, outcome, 0))
      ensures h == history
    {
      var epoch := 0;
      assert State() == StateAfter(setup, outcome, lrOf, 0);
      while epoch < setup.numEpochs
        invariant Valid()
        invariant State() == StateAfter(setup, outcome, lrOf, epoch)
        invariant EpochsRun(setup, outcome, 0) == EpochsRun(setup, outcome, epoch)
        decreases setup.numEpochs - epoch
      {
        StateStep(setup, outcome, lrOf, epoch);
        var stop := RunEpoch(epoch, outcome(epoch), lrOf);
        if stop {
          return history;
        }
        epoch := epoch + 1;
      }
      h := history;
    }

    /** The body of the epoch loop once the epoch's results are known: read
        the learning rate, append to the history, track the best balanced
        accuracy, save the checkpoints and ask early stopping. */
    method RunEpoch(epoch: nat, r: EpochResult, lrOf: seq<real> -> real) returns (stop: bool)
      requires Valid()
      modifies this, earlyStopping
      ensures Valid()
      ensures State() == NextState(setup, old(State()), epoch, r, lrOf(old(history.valBalancedAcc)))
      ensures stop == EsStep(EsConfigOf(setup), old(State()).es, r.balancedAcc).1
    {
      var currentLr := lrOf(history.valBalancedAcc);
      history := AppendEpoch(history, r, currentLr);
      var isBest := r.balancedAcc > bestValBalancedAcc;
      if isBest {
        bestValBalancedAcc := r.balancedAcc;
      }
      saves := SaveCheckpoint(setup, saves, Checkpoint(epoch, r.balancedAcc, r.melSensitivity), isBest);
      stop := earlyStopping.Call(r.balancedAcc);
    }
  }

  /** The loop runs at most `num_epochs` epochs; it stops early only right
      after the epoch in which early stopping fired, and early stopping fired
      in no earlier epoch. */
  lemma {:induction false} EpochsRunBounds(setup: Setup, outcome: nat -> EpochResult, e: nat)
    ensures e <= EpochsRun(setup, outcome, e)
    ensures e <= setup.numEpochs ==> EpochsRun(setup, outcome, e) <= setup.numEpochs
    ensures EpochsRun(setup, outcome, e) < setup.numEpochs ==>
      EpochsRun(setup, outcome, e) > e && StopsAt(setup, outcome, EpochsRun(setup, outcome, e) - 1)
    ensures forall k :: e <= k < EpochsRun(setup, outcome, e) - 1 ==> !StopsAt(setup, outcome, k)
    decreases setup.numEpochs - e
  {
    if e < setup.numEpochs && !StopsAt(setup, outcome, e) {
      EpochsRunBounds(setup, outcome, e + 1);
    }
  }

  /** `is_best` holds exactly when the balanced accuracy beats 0.0 and every
      earlier epoch strictly; ties are not new bests. */
  lemma IsBestAtSpec(outcome: nat -> EpochResult, e: nat)
    ensures IsBestAt(outcome, e) <==>
      outcome(e).balancedAcc > 0.0 && forall j :: 0 <= j < e ==> outcome(e).balancedAcc > outcome(j).balancedAcc
  {
    var a := Accs(outcome, e);
    if outcome(e).balancedAcc > 0.0 && forall j :: 0 <= j < e ==> outcome(e).balancedAcc > outcome(j).balancedAcc {
      if MaxFromZero(a) != 0.0 {
        var k :| 0 <= k < |a| && a[k] == MaxFromZero(a);
      }
    }
  }

  /** Balanced accuracies 0.60, 0.65, 0.65, 0.70 give new bests in epochs 0, 1
      and 3 but not 2. */
  lemma BestFlagsExample(outcome: nat -> EpochResult)
    requires outcome(0).balancedAcc == 0.60 && outcome(1).balancedAcc == 0.65
    requires outcome(2).balancedAcc == 0.65 && outcome(3).balancedAcc == 0.70
    ensures IsBestAt(outcome, 0) && IsBestAt(outcome, 1) && !IsBestAt(outcome, 2) && IsBestAt(outcome, 3)
  {
    IsBestAtSpec(outcome, 0);
    IsBestAtSpec(outcome, 1);
    IsBestAtSpec(outcome, 2);
    IsBestAtSpec(outcome, 3);
  }

  lemma {:induction false} SavesFromSpec(setup: Setup, outcome: nat -> EpochResult, flags: seq<bool>)
    ensures forall k :: 0 <= k < |flags| ==>
      Save(LatestPath(setup), CheckpointOf(outcome, k)) in SavesFrom(setup, outcome, flags)
    ensures forall k :: 0 <= k < |flags| ==>
      (Save(BestPath(setup), CheckpointOf(outcome, k)) in SavesFrom(setup, outcome, flags) <==> flags[k])
    ensures forall s :: s in SavesFrom(setup, outcome, flags) ==>
      (s.path == LatestPath(setup) || s.path == BestPath(setup)) && s.checkpoint.epoch < |flags|
      && s.checkpoint == CheckpointOf(outcome, s.checkpoint.epoch)
  {
    if flags != [] {
      var e := |flags| - 1;
      SavesFromSpec(setup, outcome, flags[..e]);
      PathsDiffer(setup);
      var c := CheckpointOf(outcome, e);
      forall k | 0 <= k < e
        ensures (Save(BestPath(setup), CheckpointOf(outcome, k)) in SavesFrom(setup, outcome, flags) <==> flags[k])
      {
        assert CheckpointOf(outcome, k).epoch != c.epoch;
      }
    }
  }

  /** Every epoch writes the latest checkpoint; an epoch writes the best
      checkpoint exactly when it is a new best; nothing else is written. */
  lemma SavesAfter(setup: Setup, outcome: nat -> EpochResult, e: nat)
    ensures forall k :: 0 <= k < e ==> Save(LatestPath(setup), CheckpointOf(outcome, k)) in SavesOf(setup, outcome, e)
    ensures forall k :: 0 <= k < e ==>
      (Save(BestPath(setup), CheckpointOf(outcome, k)) in SavesOf(setup, outcome, e) <==> IsBestAt(outcome, k))
    ensures forall s :: s in SavesOf(setup, outcome, e) ==>
      (s.path == LatestPath(setup) || s.path == BestPath(setup)) && s.checkpoint.epoch < e
      && s.checkpoint == CheckpointOf(outcome, s.checkpoint.epoch)
  {
    SavesFromSpec(setup, outcome, BestFlags(outcome, e));
  }

  /** The best checkpoint on disk holds the best balanced accuracy: when the
      running best has left 0.0, some new-best epoch wrote it to the best file. */
  lemma BestCheckpointHoldsBest(setup: Setup, outcome: nat -> EpochResult, lrOf: seq<real> -> real, e: nat)
    requires StateAfter(setup, outcome, lrOf, e).bestValBalancedAcc > 0.0
    ensures exists k :: (0 <= k < e && IsBestAt(outcome, k)
      && outcome(k).balancedAcc == StateAfter(setup, outcome, lrOf, e).bestValBalancedAcc
      && Save(BestPath(setup), CheckpointOf(outcome, k)) in StateAfter(setup, outcome, lrOf, e).saves)
  {
    SavesAfter(setup, outcome, e);
    var a := Accs(outcome, e);
    var m := MaxFromZero(a);
    var k := FirstMax(a, m);
    assert a[..k] == Accs(outcome, k);
    assert IsBestAt(outcome, k);
  }

  /** The first position at which the maximum is reached: everything before it is smaller. */
  lemma {:induction false} FirstMax(a: seq<real>, m: real) returns (k: nat)
    requires m == MaxFromZero(a) && m > 0.0
    ensures k < |a| && a[k] == m && MaxFromZero(a[..k]) < m
  {
    var p := a[..|a| - 1];
    if MaxFromZero(p) == m {
      k := FirstMax(p, m);
      assert p[..k] == a[..k];
    } else {
      k := |a| - 1;
      assert a[..k] == p;
    }
  }

  /** Whether early stopping fires in an epoch is what the call sequence of
      the balanced accuracies so far returns there; so once it has fired it
      would fire in every later epoch. */
  lemma StopsAtIsEsRun(setup: Setup, outcome: nat -> EpochResult, e: nat)
    ensures StopsAt(setup, outcome, e) == EsRun(EsConfigOf(setup), Accs(outcome, e + 1)).1[e]
  {
    AccsPrefix(outcome, e);
  }
}
