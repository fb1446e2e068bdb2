/** `train` in backend/train.py: labels read by iterating the validating
    generator, an 80/20 `random_split`, and an epoch loop that records six
    metrics per epoch and saves whenever the validation accuracy (a
    percentage) beats the best so far, which starts at 0.0. There is no
    early stop. Batches are oracle outcomes (`Tally.Batch`); the learning
    rate the scheduler reports is an input per epoch. */
module MetricsTraining {
  import opened Common
  import opened Tally
  import DataGenerator
  import Splits

  // ---- the label comprehension ----

  /** `[label for _, label in train_dataset]`. A dataset without `__iter__`
      is iterated through `__getitem__(0)`, `__getitem__(1)`, ... until one
      raises IndexError; any other exception propagates out of `train`. */
  method AllLabels(g: DataGenerator.DRDataGenerator, load: string -> Option<bool>)
    returns (r: Result<seq<int>, DataGenerator.AccessError>)
    requires g.Valid()
    ensures r.Success? <==> forall k :: 0 <= k < |g.imagePaths| ==> load(g.imagePaths[k]).Some?
    ensures r.Success? ==> r.value == g.labels
    ensures r.Failure? ==> r.error == DataGenerator.LoadFailed
  {
    var labels: seq<int> := [];
    var idx := 0;
    while true
      invariant 0 <= idx <= |g.imagePaths|
      invariant labels == g.labels[..idx]
      invariant forall k :: 0 <= k < idx ==> load(g.imagePaths[k]).Some?
      decreases |g.imagePaths| - idx
    {
      var item := g.GetItem(idx, load);
      if item.Failure? {
        if item.error == DataGenerator.IndexOutOfRange {
          // the end of the sequence protocol
          assert idx == |g.imagePaths| && g.labels[..idx] == g.labels;
          return Success(labels);
        }
        return Failure(item.error);
      }
      assert g.labels[..idx + 1] == g.labels[..idx] + [g.labels[idx]];
      labels := labels + [item.value.1];
      idx := idx + 1;
    }
  }

  // ---- the split and the loaders ----

  /** The two subsets `random_split` gives and the lengths of the two
      loaders over them. */
  datatype Loaders = Loaders(trainSubset: seq<nat>, valSubset: seq<nat>, trainBatches: nat, valBatches: nat)

  /** `train_size = int(0.8 n)` and the rest, `random_split` over the drawn
      permutation, a shuffling training loader and a sequential validation
      loader of the same batch size. With one sample the training subset is
      empty and the shuffling loader raises ValueError before any epoch, so
      a loader that is built always yields at least one training batch;
      from two samples on the validation subset is not empty either. */
  function MakeLoaders(perm: seq<nat>, batchSize: int): (r: Result<Loaders, Splits.LoaderError>)
    requires Splits.IsPermutation(perm, |perm|)
    ensures r.Failure? <==> |perm| <= 1 || batchSize <= 0
    ensures r.Failure? ==> (r.error == Splits.NoSamples <==> |perm| <= 1)
    ensures r.Success? ==> r.value.trainBatches > 0 && r.value.valBatches > 0
  {
    var sizes := Splits.TrainSizes(|perm|);
    var (trainSubset, valSubset) := Splits.SplitTwo(perm, sizes);
    var trainLoader := Splits.ShuffledLoaderLen(sizes[0], batchSize);
    if trainLoader.Failure? then Failure(trainLoader.error)
    else Success(Loaders(trainSubset, valSubset, trainLoader.value, Splits.LoaderLen(sizes[1], batchSize).value))
  }

  /** The two subsets partition the indices, the training subset holding
      `int(0.8 n)` of them, and each loader has as many batches as it takes
      to hold its subset. */
  lemma LoadersPartition(perm: seq<nat>, batchSize: int, x: nat)
    requires Splits.IsPermutation(perm, |perm|) && |perm| > 1 && batchSize > 0
    ensures var l := MakeLoaders(perm, batchSize).value;
      |l.trainSubset| == 4 * |perm| / 5 && |l.trainSubset| + |l.valSubset| == |perm| &&
      !(x in l.trainSubset && x in l.valSubset) &&
      (x < |perm| <==> x in l.trainSubset || x in l.valSubset) &&
      Splits.LoaderLen(|l.trainSubset|, batchSize) == Success(l.trainBatches) &&
      Splits.LoaderLen(|l.valSubset|, batchSize) == Success(l.valBatches)
  {
    var n := |perm|;
    Splits.RandomSplitPartition(perm, n, 4 * n / 5, n - 4 * n / 5, x);
  }

  // ---- the epoch loop ----

  /** The batches of one epoch and the learning rate read after it. */
  datatype Epoch = Epoch(train: seq<Batch>, val: seq<Batch>, lr: real)

  predicate Shaped(epochs: seq<Epoch>) {
    forall k :: 0 <= k < |epochs| ==> WellShaped(epochs[k].train) && WellShaped(epochs[k].val)
  }

  /** The `metrics` dictionary. */
  datatype Metrics = Metrics(epoch: seq<nat>, trainLoss: seq<real>, trainAcc: seq<real>,
                             valLoss: seq<real>, valAcc: seq<real>, lr: seq<real>)

  /** The metrics, `best_val_accuracy`, and the epochs at which
      `best_model.pth` was written. */
  datatype State = State(metrics: Metrics, best: real, saved: seq<nat>)

  const Start: State := State(Metrics([], [], [], [], [], []), 0.0, [])

  /** `train` raises ZeroDivisionError when a pass sees no samples. */
  datatype TrainError = ZeroDivision

  /** Neither pass of the epoch is empty, so neither accuracy divides by zero. */
  predicate Completes(e: Epoch)
    requires WellShaped(e.train) && WellShaped(e.val)
  {
    TotalSum(e.train) > 0 && TotalSum(e.val) > 0
  }

  /** The state after an epoch with the given figures: one entry appended
      to each metric list, then the best-accuracy rule. */
  function Advance(s: State, epoch: nat, trainLoss: real, trainAcc: real, valLoss: real, valAcc: real, lr: real): State {
    var m := s.metrics;
    var m1 := Metrics(m.epoch + [epoch], m.trainLoss + [trainLoss], m.trainAcc + [trainAcc],
                      m.valLoss + [valLoss], m.valAcc + [valAcc], m.lr + [lr]);
    if valAcc > s.best then State(m1, valAcc, s.saved + [epoch])
    else State(m1, s.best, s.saved)
  }

  /** The state after a completed epoch: its mean losses and accuracies. */
  function Record(s: State, epoch: nat, e: Epoch): State
    requires WellShaped(e.train) && WellShaped(e.val) && Completes(e)
  {
    Advance(s, epoch, LossSum(e.train) / |e.train| as real, Percent(CorrectSum(e.train), TotalSum(e.train)),
            LossSum(e.val) / |e.val| as real, Percent(CorrectSum(e.val), TotalSum(e.val)), e.lr)
  }

  /** One epoch of the loop. */
  function Step(s: State, epoch: nat, e: Epoch): Result<State, TrainError>
    requires WellShaped(e.train) && WellShaped(e.val)
  {
    if !Completes(e) then Failure(ZeroDivision) else Success(Record(s, epoch, e))
  }

  /** All `args.epochs` epochs, stopping only at an error. */
  function Run(epochs: seq<Epoch>): Result<State, TrainError>
    requires Shaped(epochs)
  {
    if |epochs| == 0 then Success(Start)
    else
      var init := epochs[..|epochs| - 1];
      match Run(init)
      case Failure(e) => Failure(e)
      case Success(s) => Step(s, |init|, epochs[|epochs| - 1])
  }

  lemma RunSnoc(epochs: seq<Epoch>, epoch: nat)
    requires Shaped(epochs) && epoch < |epochs|
    ensures Shaped(epochs[..epoch]) && Shaped(epochs[..epoch + 1])
    ensures Run(epochs[..epoch + 1]) ==
      match Run(epochs[..epoch])
      case Failure(e) => Failure(e)
      case Success(s) => Step(s, epoch, epochs[epoch])
  {
    assert epochs[..epoch + 1][..epoch] == epochs[..epoch];
  }

  /** Once an epoch has raised, the later ones are never reached. */
  lemma {:induction false} FailureFinal(epochs: seq<Epoch>, more: seq<Epoch>)
    requires Shaped(epochs) && Shaped(epochs + more) && Run(epochs).Failure?
    ensures Run(epochs + more) == Run(epochs)
    decreases |more|
  {
    if |more| > 0 {
      var init := more[..|more| - 1];
      assert (epochs + more)[..|epochs + more| - 1] == epochs + init;
      assert Shaped(epochs + init) by {
        assert forall k :: 0 <= k < |epochs + init| ==> (epochs + init)[k] == (epochs + more)[k];
      }
      FailureFinal(epochs, init);
    } else {
      assert epochs + more == epochs;
    }
  }
  /** The run that stops after epoch `epoch` is the whole run. */
  lemma FailureFinalAt(epochs: seq<Epoch>, epoch: nat)
    requires Shaped(epochs) && epoch < |epochs| && Shaped(epochs[..epoch + 1])
    requires Run(epochs[..epoch + 1]).Failure?
    ensures Run(epochs) == Run(epochs[..epoch + 1])
  {
    FailureFinal(epochs[..epoch + 1], epochs[epoch + 1..]);
    assert epochs[..epoch + 1] + epochs[epoch + 1..] == epochs;
  }


  /** The epoch loop of `train`; it returns `metrics`. */
  method Train(epochs: seq<Epoch>) returns (r: Result<State, TrainError>)
    requires Shaped(epochs)
    ensures r == Run(epochs)
  {
    var s := Start;
    var epoch := 0;
    while epoch < |epochs|
      invariant 0 <= epoch <= |epochs|
      invariant Run(epochs[..epoch]) == Success(s)
    {
      RunSnoc(epochs, epoch);
      r := EpochBody(s, epoch, epochs[epoch]);
      if r.Failure? {
        FailureFinalAt(epochs, epoch);
        return;
      }
      s := r.value;
      epoch := epoch + 1;
    }
    assert epochs[..epoch] == epochs;
    r := Success(s);
  }

  /** One pass of the loop body. */
  method EpochBody(s: State, epoch: nat, e: Epoch) returns (r: Result<State, TrainError>)
    requires WellShaped(e.train) && WellShaped(e.val)
    ensures r == Step(s, epoch, e)
  {
    var train := Accumulate(e.train);
    var val := Accumulate(e.val);
    if train.total == 0 || val.total == 0 {
      return Failure(ZeroDivision);
    }
    assert Completes(e);
    var trainAccuracy := Percent(train.correct, train.total);
    var valAccuracy := Percent(val.correct, val.total);
    var m := s.metrics;
    var metrics := Metrics(m.epoch + [epoch], m.trainLoss + [train.loss / |e.train| as real],
                           m.trainAcc + [trainAccuracy], m.valLoss + [val.loss / |e.val| as real],
                           m.valAcc + [valAccuracy], m.lr + [e.lr]);
    var best := s.best;
    var saved := s.saved;
    if valAccuracy > best {
      best := valAccuracy;
      saved := saved + [epoch];
    }
    r := Success(State(metrics, best, saved));
  }

  /** What every state reached satisfies: the six lists have one entry per
      epoch, `metrics['epoch']` is 0, 1, 2, ..., the accuracies are
      percentages, the best is the largest validation accuracy so far (0.0
      before any beats it), and saves happen exactly at the epochs that
      strictly beat it. */
  ghost predicate Inv(s: State, n: nat) {
    Figures(s.metrics, n) && s.best == MaxFrom(0.0, s.metrics.valAcc) && s.saved == BestSaves(s.metrics.valAcc)
  }

  ghost predicate Figures(m: Metrics, n: nat) {
    |m.epoch| == |m.trainLoss| == |m.trainAcc| == |m.valLoss| == |m.valAcc| == |m.lr| == n &&
    m.epoch == Range(n) &&
    forall i :: 0 <= i < n ==> 0.0 <= m.trainAcc[i] <= 100.0 && 0.0 <= m.valAcc[i] <= 100.0
  }

  /** The loop body keeps `Inv`, whatever the losses and learning rate, as
      long as the accuracies are percentages. */
  lemma StepKeepsInv(s: State, n: nat, trainLoss: real, trainAcc: real, valLoss: real, valAcc: real, lr: real)
    requires Inv(s, n)
    requires 0.0 <= trainAcc <= 100.0 && 0.0 <= valAcc <= 100.0
    ensures Inv(Advance(s, n, trainLoss, trainAcc, valLoss, valAcc, lr), n + 1)
  {
    FiguresStep(s, n, trainLoss, trainAcc, valLoss, valAcc, lr);
    var t := Advance(s, n, trainLoss, trainAcc, valLoss, valAcc, lr);
    assert t.metrics.valAcc == s.metrics.valAcc + [valAcc];
    BestSnoc(s.metrics.valAcc, valAcc);
  }

  lemma FiguresStep(s: State, n: nat, trainLoss: real, trainAcc: real, valLoss: real, valAcc: real, lr: real)
    requires Figures(s.metrics, n)
    requires 0.0 <= trainAcc <= 100.0 && 0.0 <= valAcc <= 100.0
    ensures Figures(Advance(s, n, trainLoss, trainAcc, valLoss, valAcc, lr).metrics, n + 1)
  {
    var m := s.metrics;
    var t := Advance(s, n, trainLoss, trainAcc, valLoss, valAcc, lr).metrics;
    assert t == Metrics(m.epoch + [n], m.trainLoss + [trainLoss], m.trainAcc + [trainAcc],
                        m.valLoss + [valLoss], m.valAcc + [valAcc], m.lr + [lr]);
    forall i | 0 <= i < n + 1
      ensures 0.0 <= t.trainAcc[i] <= 100.0 && 0.0 <= t.valAcc[i] <= 100.0
    {
      if i < n {
        assert t.trainAcc[i] == m.trainAcc[i] && t.valAcc[i] == m.valAcc[i];
      }
    }
  }

  /** A run that does not raise runs every epoch and keeps `Inv`. */
  lemma {:induction false} RunInv(epochs: seq<Epoch>)
    requires Shaped(epochs) && Run(epochs).Success?
    ensures Inv(Run(epochs).value, |epochs|)
  {
    if |epochs| > 0 {
      var n := |epochs| - 1;
      var init := epochs[..n];
      RunSnoc(epochs, n);
      assert epochs[..n + 1] == epochs;
      RunInv(init);
      var s := Run(init).value;
      var e := epochs[n];
      assert Completes(e);
      var trainLoss := LossSum(e.train) / |e.train| as real;
      var valLoss := LossSum(e.val) / |e.val| as real;
      var trainAcc := Percent(CorrectSum(e.train), TotalSum(e.train));
      var valAcc := Percent(CorrectSum(e.val), TotalSum(e.val));
      assert Run(epochs).value == Advance(s, n, trainLoss, trainAcc, valLoss, valAcc, e.lr);
      StepKeepsInv(s, n, trainLoss, trainAcc, valLoss, valAcc, e.lr);
    } else {
      assert Inv(Start, 0);
    }
  }

  /** A run raises exactly when some epoch has a pass with no samples. */
  lemma {:induction false} RunFails(epochs: seq<Epoch>)
    requires Shaped(epochs)
    ensures Run(epochs).Failure? <==> exists k :: 0 <= k < |epochs| && !Completes(epochs[k])
  {
    if |epochs| > 0 {
      var init := epochs[..|epochs| - 1];
      var n := |init|;
      RunSnoc(epochs, n);
      assert epochs[..n + 1] == epochs;
      RunFails(init);
      if Run(init).Failure? {
        var k :| 0 <= k < n && !Completes(init[k]);
        assert init[k] == epochs[k];
      } else if Completes(epochs[n]) {
        forall k | 0 <= k < |epochs| ensures Completes(epochs[k]) {
          if k < n { assert init[k] == epochs[k]; }
        }
      }
    }
  }

  /** The checkpoint rule: epoch `i` saves exactly when its validation
      accuracy is above 0.0 and above every earlier one; the best never
      decreases and bounds every validation accuracy. */
  lemma BestAccuracyRule(epochs: seq<Epoch>, i: nat, j: nat)
    requires Shaped(epochs) && Run(epochs).Success?
    ensures var s := Run(epochs).value; var h := s.metrics.valAcc;
      i < |h| ==> (i in s.saved <==> 0.0 < h[i] && forall k :: 0 <= k < i ==> h[k] < h[i])
    ensures var s := Run(epochs).value; var h := s.metrics.valAcc;
      0.0 <= s.best && forall k :: 0 <= k < |h| ==> h[k] <= s.best
    ensures var h := Run(epochs).value.metrics.valAcc;
      i <= j <= |h| ==> MaxFrom(0.0, h[..i]) <= MaxFrom(0.0, h[..j])
  {
    RunInv(epochs);
    var h := Run(epochs).value.metrics.valAcc;
    if i < |h| {
      BestSavesSpec(h, i);
    }
    if i <= j <= |h| {
      BestMonotone(h, i, j);
    }
  }
}
