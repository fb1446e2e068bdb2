/** `train_model` in backend/enhanced_training.py: labels gathered through
    the validating generator, class weights from `np.bincount`, an 80/20
    `random_split`, a warm-up of a fifth of the steps, and an epoch loop
    that keeps the best validation accuracy (from 0.0) with a patience of
    thirty epochs. Batches are oracle outcomes (`Tally.Batch`); the network,
    the optimiser and the scheduler are not modelled. */
module EnhancedTraining {
  import opened Common
  import opened Tally
  import ClassBalance
  import Splits
  import DataGenerator

  /** Early-stopping patience. */
  const Patience: nat := 30

  /** The error that escapes `train_model`: a division of a correct count
      by a zero total (an empty loader). */
  datatype TrainError = ZeroDivision

  // ---- the label loop ----

  /** The labels of the samples whose `__getitem__` does not raise, in
      index order. */
  function LoadedLabels(paths: seq<string>, labels: seq<int>, load: string -> Option<bool>): (r: seq<int>)
    requires |paths| == |labels|
    ensures |r| <= |labels|
    ensures forall x :: x in r ==> x in labels
  {
    if |paths| == 0 then []
    else
      var n := |paths| - 1;
      LoadedLabels(paths[..n], labels[..n], load) + (if load(paths[n]).Some? then [labels[n]] else [])
  }

  /** When every image loads, every label is kept. */
  lemma {:induction false} LoadedLabelsAll(paths: seq<string>, labels: seq<int>, load: string -> Option<bool>)
    requires |paths| == |labels| && forall i :: 0 <= i < |paths| ==> load(paths[i]).Some?
    ensures LoadedLabels(paths, labels, load) == labels
  {
    if |paths| > 0 {
      var n := |paths| - 1;
      LoadedLabelsAll(paths[..n], labels[..n], load);
      assert labels == labels[..n] + [labels[n]];
    }
  }

  /** The loop `for idx in range(len(train_dataset))`: a sample whose
      `__getitem__` raises is logged and left out. The image type is
      immaterial here, so `load` only tells success from failure. */
  method CollectLabels(g: DataGenerator.DRDataGenerator, load: string -> Option<bool>) returns (labels: seq<int>)
    requires g.Valid()
    ensures labels == LoadedLabels(g.imagePaths, g.labels, load)
  {
    labels := [];
    var idx := 0;
    while idx < g.Len()
      invariant 0 <= idx <= |g.imagePaths|
      invariant labels == LoadedLabels(g.imagePaths[..idx], g.labels[..idx], load)
    {
      assert g.imagePaths[..idx + 1][..idx] == g.imagePaths[..idx];
      assert g.labels[..idx + 1][..idx] == g.labels[..idx];
      var item := g.GetItem(idx, load);
      if item.Success? {
        labels := labels + [item.value.1];
      }
      idx := idx + 1;
    }
    assert g.imagePaths[..idx] == g.imagePaths && g.labels[..idx] == g.labels;
  }

  /** The collected labels are grades, so `np.bincount` accepts them, gives
      at most five classes, and its counts add up to `total_samples`. */
  lemma CollectedWeights(paths: seq<string>, labels: seq<int>, load: string -> Option<bool>)
    requires |paths| == |labels| && forall i :: 0 <= i < |labels| ==> DataGenerator.InRange(labels[i])
    ensures var kept := LoadedLabels(paths, labels, load);
      ClassBalance.BinCountWeights(kept).Success? &&
      ClassBalance.Width(kept) <= 5 &&
      SumNat(ClassBalance.BinCount(kept).value) == |kept|
  {
    var kept := LoadedLabels(paths, labels, load);
    assert forall i :: 0 <= i < |kept| ==> kept[i] in labels;
    assert forall i :: 0 <= i < |kept| ==> 0 <= kept[i] <= 4;
    ClassBalance.BinCountSum(kept);
  }

  // ---- the data plan ----

  /** The split and schedule figures `train_model` derives before training. */
  datatype Plan = Plan(trainSubset: seq<nat>, valSubset: seq<nat>, steps: nat, warmup: nat)

  /** Sizes `[total - int(0.2 total), int(0.2 total)]`, `random_split` over
      the drawn permutation, a shuffling training loader,
      `len(train_loader) * epochs` steps and a fifth of them as warm-up.
      The training subset is empty only for an empty dataset, which the
      shuffling loader refuses. */
  function MakePlan(perm: seq<nat>, batchSize: int, epochs: nat): (r: Result<Plan, Splits.LoaderError>)
    requires Splits.IsPermutation(perm, |perm|)
    ensures r.Failure? <==> |perm| == 0 || batchSize <= 0
    ensures r.Failure? ==> (r.error == Splits.NoSamples <==> |perm| == 0)
    ensures r.Success? ==> r.value.warmup <= r.value.steps
  {
    var sizes := Splits.EnhancedSizes(|perm|);
    var (trainSubset, valSubset) := Splits.SplitTwo(perm, sizes);
    var loader := Splits.ShuffledLoaderLen(sizes[0], batchSize);
    if loader.Failure? then Failure(loader.error)
    else Success(Schedule(trainSubset, valSubset, loader.value, epochs))
  }

  /** The plan for the given subsets: `len(train_loader) * epochs` steps, a
      fifth of them as warm-up. */
  function Schedule(trainSubset: seq<nat>, valSubset: seq<nat>, loaderLen: nat, epochs: nat): (p: Plan)
    ensures p.trainSubset == trainSubset && p.valSubset == valSubset && p.warmup <= p.steps
  {
    var (steps, warmup) := Splits.WarmupSteps(loaderLen, epochs);
    Plan(trainSubset, valSubset, steps, warmup)
  }

  /** The two subsets partition the indices, the validation subset holding
      `int(0.2 n)` of them. */
  lemma PlanPartitions(perm: seq<nat>, batchSize: int, epochs: nat, x: nat)
    requires Splits.IsPermutation(perm, |perm|) && |perm| > 0 && batchSize > 0
    ensures var p := MakePlan(perm, batchSize, epochs).value;
      |p.valSubset| == |perm| / 5 && |p.trainSubset| + |p.valSubset| == |perm| &&
      !(x in p.trainSubset && x in p.valSubset) &&
      (x < |perm| <==> x in p.trainSubset || x in p.valSubset)
  {
    var n := |perm|;
    Splits.RandomSplitPartition(perm, n, n - n / 5, n / 5, x);
  }

  // ---- the epoch loop ----

  /** The batches of one epoch's training and validation passes. */
  datatype Epoch = Epoch(train: seq<Batch>, val: seq<Batch>)

  predicate Shaped(epochs: seq<Epoch>) {
    forall k :: 0 <= k < |epochs| ==> WellShaped(epochs[k].train) && WellShaped(epochs[k].val)
  }

  /** The `history` dictionary. */
  datatype History = History(trainLoss: seq<real>, valLoss: seq<real>, trainAcc: seq<real>, valAcc: seq<real>)

  /** The loop's variables, the epochs at which `best_model.pth` was
      written, and whether the loop broke out. */
  datatype State = State(history: History, best: real, counter: nat, saved: seq<nat>, stopped: bool)

  const Start: State := State(History([], [], [], []), 0.0, 0, [], false)

  /** Neither pass of the epoch is empty, so neither accuracy divides by zero. */
  predicate Completes(e: Epoch)
    requires WellShaped(e.train) && WellShaped(e.val)
  {
    TotalSum(e.train) > 0 && TotalSum(e.val) > 0
  }

  /** The state after an epoch with the given four figures: they are
      appended to the history, then the best-accuracy rule with its
      early-stop counter is applied. */
  function Advance(s: State, epoch: nat, trainLoss: real, valLoss: real, trainAcc: real, valAcc: real): State {
    var h := s.history;
    var h1 := History(h.trainLoss + [trainLoss], h.valLoss + [valLoss],
                      h.trainAcc + [trainAcc], h.valAcc + [valAcc]);
    if valAcc > s.best then State(h1, valAcc, 0, s.saved + [epoch], false)
    else State(h1, s.best, s.counter + 1, s.saved, s.counter + 1 >= Patience)
  }

  /** The state after a completed epoch: its mean losses and accuracies. */
  function Record(s: State, epoch: nat, e: Epoch): State
    requires WellShaped(e.train) && WellShaped(e.val) && Completes(e)
  {
    Advance(s, epoch, LossSum(e.train) / |e.train| as real, LossSum(e.val) / |e.val| as real,
            Fraction(CorrectSum(e.train), TotalSum(e.train)), Fraction(CorrectSum(e.val), TotalSum(e.val)))
  }

  /** One epoch: both accuracies raise ZeroDivisionError on an empty pass
      (and `train_model` re-raises it); otherwise `Record`. */
  function Step(s: State, epoch: nat, e: Epoch): Result<State, TrainError>
    requires WellShaped(e.train) && WellShaped(e.val)
  {
    if !Completes(e) then Failure(ZeroDivision) else Success(Record(s, epoch, e))
  }

  /** The loop over `epochs`, stopping at the first error or the break. */
  function Run(epochs: seq<Epoch>): Result<State, TrainError>
    requires Shaped(epochs)
  {
    if |epochs| == 0 then Success(Start)
    else
      var init := epochs[..|epochs| - 1];
      match Run(init)
      case Failure(e) => Failure(e)
      case Success(s) => if s.stopped then Success(s) else Step(s, |init|, epochs[|epochs| - 1])
  }

  /** The epoch loop of `train_model`; it returns `(history, best_val_accuracy)`. */
  method TrainLoop(epochs: seq<Epoch>) returns (r: Result<State, TrainError>)
    requires Shaped(epochs)
    ensures r == Run(epochs)
  {
    var s := Start;
    var epoch := 0;
    while epoch < |epochs|
      invariant 0 <= epoch <= |epochs|
      invariant Run(epochs[..epoch]) == Success(s) && !s.stopped
    {
      RunSnoc(epochs, epoch);
      r := EpochBody(s, epoch, epochs[epoch]);
      if r.Failure? || r.value.stopped {
        // the ZeroDivisionError propagates, or the loop breaks
        RunFailureFinalAt(epochs, epoch);
        return;
      }
      s := r.value;
      epoch := epoch + 1;
    }
    assert epochs[..epoch] == epochs;
    r := Success(s);
  }

  lemma RunSnoc(epochs: seq<Epoch>, epoch: nat)
    requires Shaped(epochs) && epoch < |epochs|
    ensures Shaped(epochs[..epoch]) && Shaped(epochs[..epoch + 1])
    ensures Run(epochs[..epoch + 1]) ==
      match Run(epochs[..epoch])
      case Failure(e) => Failure(e)
      case Success(s) => if s.stopped then Success(s) else Step(s, epoch, epochs[epoch])
  {
    assert epochs[..epoch + 1][..epoch] == epochs[..epoch];
  }

  /** One pass of the loop body: the two passes over the loaders, the
      accuracies, the history update and the best-accuracy rule. */
  method EpochBody(s: State, epoch: nat, e: Epoch) returns (r: Result<State, TrainError>)
    requires WellShaped(e.train) && WellShaped(e.val)
    ensures r == Step(s, epoch, e)
  {
    var train := Accumulate(e.train);
    var val := Accumulate(e.val);
    if train.total == 0 || val.total == 0 {
      return Failure(ZeroDivision);
    }
    assert Completes(e);
    var trainAccuracy := Fraction(train.correct, train.total);
    var valAccuracy := Fraction(val.correct, val.total);
    var h := s.history;
    var history := History(h.trainLoss + [train.loss / |e.train| as real],
                           h.valLoss + [val.loss / |e.val| as real],
                           h.trainAcc + [trainAccuracy], h.valAcc + [valAccuracy]);
    if valAccuracy > s.best {
      r := Success(State(history, valAccuracy, 0, s.saved + [epoch], false));
    } else {
      var earlyStopCounter := s.counter + 1;
      r := Success(State(history, s.best, earlyStopCounter, s.saved, earlyStopCounter >= Patience));
    }
  }

  /** Once the loop has raised or broken out, later epochs change nothing. */
  lemma {:induction false} RunFailureFinal(epochs: seq<Epoch>, more: seq<Epoch>)
    requires Shaped(epochs) && Shaped(epochs + more)
    requires Run(epochs).Failure? || Run(epochs).value.stopped
    ensures Run(epochs + more) == Run(epochs)
    decreases |more|
  {
    if |more| > 0 {
      var init := more[..|more| - 1];
      assert (epochs + more)[..|epochs + more| - 1] == epochs + init;
      assert Shaped(epochs + init) by {
        assert forall k :: 0 <= k < |epochs + init| ==> (epochs + init)[k] == (epochs + more)[k];
      }
      RunFailureFinal(epochs, init);
    } else {
      assert epochs + more == epochs;
    }
  }
  /** The run that stops after epoch `epoch` is the whole run. */
  lemma RunFailureFinalAt(epochs: seq<Epoch>, epoch: nat)
    requires Shaped(epochs) && epoch < |epochs| && Shaped(epochs[..epoch + 1])
    requires Run(epochs[..epoch + 1]).Failure? || Run(epochs[..epoch + 1]).value.stopped
    ensures Run(epochs) == Run(epochs[..epoch + 1])
  {
    RunFailureFinal(epochs[..epoch + 1], epochs[epoch + 1..]);
    assert epochs[..epoch + 1] + epochs[epoch + 1..] == epochs;
  }


  /** What every state the loop reaches satisfies: the four history lists
      grow in lockstep, one entry per completed epoch; accuracies are
      fractions; `best_val_accuracy` is the largest validation accuracy so
      far (0.0 before any beats it), the checkpoints are written exactly at
      the epochs that strictly beat it, the counter counts the epochs since
      the last checkpoint (or since the start), and the loop breaks exactly
      when it reaches 30. */
  ghost predicate Inv(s: State) {
    Figures(s.history) && BestSoFar(s) && Counts(s)
  }

  /** The four lists in lockstep, accuracies as fractions. */
  ghost predicate Figures(h: History) {
    var n := |h.valAcc|;
    |h.trainLoss| == |h.valLoss| == |h.trainAcc| == n &&
    forall i :: 0 <= i < n ==> 0.0 <= h.trainAcc[i] <= 1.0 && 0.0 <= h.valAcc[i] <= 1.0
  }

  /** The best and the checkpoints follow the validation accuracies. */
  ghost predicate BestSoFar(s: State) {
    s.best == MaxFrom(0.0, s.history.valAcc) && s.saved == BestSaves(s.history.valAcc)
  }

  /** The counter counts the epochs since the last checkpoint, and the
      loop breaks exactly when it reaches the patience. */
  ghost predicate Counts(s: State) {
    var n := |s.history.valAcc|;
    (|s.saved| == 0 ==> s.counter == n) &&
    (|s.saved| > 0 ==> s.saved[|s.saved| - 1] + 1 + s.counter == n) &&
    s.counter <= Patience && (s.stopped <==> s.counter == Patience)
  }

  /** The body of the loop keeps `Inv`, whatever the losses, as long as
      the accuracies are fractions. */
  lemma StepKeepsInv(s: State, trainLoss: real, valLoss: real, trainAcc: real, valAcc: real)
    requires Inv(s) && !s.stopped
    requires 0.0 <= trainAcc <= 1.0 && 0.0 <= valAcc <= 1.0
    ensures Inv(Advance(s, |s.history.valAcc|, trainLoss, valLoss, trainAcc, valAcc))
  {
    FiguresStep(s, trainLoss, valLoss, trainAcc, valAcc);
    BestStep(s, trainLoss, valLoss, trainAcc, valAcc);
    CountsStep(s, trainLoss, valLoss, trainAcc, valAcc);
  }

  lemma FiguresStep(s: State, trainLoss: real, valLoss: real, trainAcc: real, valAcc: real)
    requires Figures(s.history)
    requires 0.0 <= trainAcc <= 1.0 && 0.0 <= valAcc <= 1.0
    ensures Figures(Advance(s, |s.history.valAcc|, trainLoss, valLoss, trainAcc, valAcc).history)
  {
    var h := s.history;
    var n := |h.valAcc|;
    var t := Advance(s, n, trainLoss, valLoss, trainAcc, valAcc).history;
    assert t == History(h.trainLoss + [trainLoss], h.valLoss + [valLoss], h.trainAcc + [trainAcc], h.valAcc + [valAcc]);
    forall i | 0 <= i < n + 1
      ensures 0.0 <= t.trainAcc[i] <= 1.0 && 0.0 <= t.valAcc[i] <= 1.0
    {
      if i < n {
        assert t.trainAcc[i] == h.trainAcc[i] && t.valAcc[i] == h.valAcc[i];
      }
    }
  }

  lemma BestStep(s: State, trainLoss: real, valLoss: real, trainAcc: real, valAcc: real)
    requires BestSoFar(s)
    ensures BestSoFar(Advance(s, |s.history.valAcc|, trainLoss, valLoss, trainAcc, valAcc))
  {
    var t := Advance(s, |s.history.valAcc|, trainLoss, valLoss, trainAcc, valAcc);
    assert t.history.valAcc == s.history.valAcc + [valAcc];
    BestSnoc(s.history.valAcc, valAcc);
  }

  lemma CountsStep(s: State, trainLoss: real, valLoss: real, trainAcc: real, valAcc: real)
    requires Counts(s) && !s.stopped
    ensures Counts(Advance(s, |s.history.valAcc|, trainLoss, valLoss, trainAcc, valAcc))
  {
  }

  /** Every state the loop reaches without raising satisfies `Inv`, and
      until the break every epoch has completed. */
  lemma {:induction false} RunInv(epochs: seq<Epoch>)
    requires Shaped(epochs) && Run(epochs).Success?
    ensures Inv(Run(epochs).value)
    ensures |Run(epochs).value.history.valAcc| <= |epochs|
    ensures !Run(epochs).value.stopped ==> |Run(epochs).value.history.valAcc| == |epochs|
  {
    if |epochs| > 0 {
      var n := |epochs| - 1;
      var init := epochs[..n];
      RunSnoc(epochs, n);
      assert epochs[..n + 1] == epochs;
      RunInv(init);
      var s := Run(init).value;
      if !s.stopped {
        var e := epochs[n];
        assert Completes(e);
        var trainLoss := LossSum(e.train) / |e.train| as real;
        var valLoss := LossSum(e.val) / |e.val| as real;
        var trainAcc := Fraction(CorrectSum(e.train), TotalSum(e.train));
        var valAcc := Fraction(CorrectSum(e.val), TotalSum(e.val));
        assert Run(epochs).value == Advance(s, n, trainLoss, valLoss, trainAcc, valAcc);
        StepKeepsInv(s, trainLoss, valLoss, trainAcc, valAcc);
      }
    } else {
      assert Inv(Start);
    }
  }

  /** The checkpoint rule over a whole run: epoch `i` writes
      `best_model.pth` exactly when its validation accuracy is above 0.0
      and above every earlier one; the reported best bounds every
      validation accuracy; and a run that broke out wrote no checkpoint in
      its last thirty epochs. */
  lemma BestAccuracyRule(epochs: seq<Epoch>, i: nat)
    requires Shaped(epochs) && Run(epochs).Success?
    ensures var s := Run(epochs).value; var h := s.history.valAcc;
      i < |h| ==>
        (i in s.saved <==> 0.0 < h[i] && forall j :: 0 <= j < i ==> h[j] < h[i])
    ensures var s := Run(epochs).value; var h := s.history.valAcc;
      0.0 <= s.best && forall j :: 0 <= j < |h| ==> h[j] <= s.best
    ensures var s := Run(epochs).value; var h := s.history.valAcc;
      s.stopped ==> (|h| >= Patience && forall j :: |h| - Patience <= j < |h| ==> j !in s.saved)
  {
    RunInv(epochs);
    var s := Run(epochs).value;
    var h := s.history.valAcc;
    if i < |h| {
      BestSavesSpec(h, i);
    }
    if s.stopped {
      NoRecentSave(s);
    }
  }

  /** When the loop breaks, none of the last thirty epochs wrote a checkpoint. */
  lemma NoRecentSave(s: State)
    requires BestSoFar(s) && Counts(s) && s.stopped
    ensures |s.history.valAcc| >= Patience
    ensures forall j :: |s.history.valAcc| - Patience <= j < |s.history.valAcc| ==> j !in s.saved
  {
    var n := |s.history.valAcc|;
    assert forall k :: 0 <= k < |s.saved| ==> s.saved[k] <= s.saved[|s.saved| - 1];
  }
}
