/** backend/pipeline.py: the image paths built from the label table, the
    dataset over parallel path and label lists, and the epoch loop of
    `train_model`, which keeps the best validation accuracy (a percentage,
    from 0.0) and saves on every strict improvement. The stratified split
    between them is not modelled. */
module Pipeline {
  import opened Common
  import opened Paths
  import opened Tally

  // ---- preprocess_data ----

  /** One row of `trainLabels.csv`: the `image` id and the `level`. */
  datatype LabelRow = LabelRow(image: string, level: int)

  /** `data_dir / 'train' / f"{id}.jpeg"`. */
  function ImagePath(dataDir: string, id: string): string {
    Join(Join(dataDir, "train"), id + ".jpeg")
  }

  /** The image paths and the labels of `preprocess_data`, before the split. */
  function Preprocess(dataDir: string, rows: seq<LabelRow>): (r: (seq<string>, seq<int>))
    ensures |r.0| == |rows| && |r.1| == |rows|
    ensures forall i :: 0 <= i < |rows| ==> r.0[i] == ImagePath(dataDir, rows[i].image) && r.1[i] == rows[i].level
  {
    (seq(|rows|, i requires 0 <= i < |rows| => ImagePath(dataDir, rows[i].image)),
     seq(|rows|, i requires 0 <= i < |rows| => rows[i].level))
  }

  /** Every path names the file `<id>.jpeg` inside the `train` directory,
      and its stem gives the id back, for ids without a separator. */
  lemma ImagePathNamesId(dataDir: string, id: string)
    requires |id| > 0 && Sep !in id && '.' !in id
    ensures BaseName(ImagePath(dataDir, id)) == id + ".jpeg"
    ensures Stem(BaseName(ImagePath(dataDir, id))) == id
  {
    var file := id + ".jpeg";
    assert file == id + "." + "jpeg";
    assert Sep !in file by {
      assert Sep !in ".jpeg";
    }
    BaseNameOfJoin(Join(dataDir, "train"), file);
    StemDropsExtension(id, "jpeg");
  }

  // ---- DRDataset ----

  /** The errors `DRDataset.__getitem__` lets through. */
  datatype AccessError = IndexError | LoadError

  /** `DRDataset.__len__`: the number of paths; the indices whose path
      lookup succeeds are exactly those in `[-len, len)`. */
  function Len(paths: seq<string>): (n: nat)
    ensures forall idx :: -(n as int) <= idx < n <==> PyIndex(idx, |paths|).Some?
  {
    |paths|
  }

  /** `DRDataset.__getitem__(idx)`: the path lookup, the image load (whose
      failure propagates) and the label lookup, in that order; the label is
      `labels[idx]` unchanged. */
  function GetItem<Img>(paths: seq<string>, labels: seq<int>, idx: int, load: string -> Option<Img>): (r: Result<(Img, int), AccessError>)
    ensures PyIndex(idx, |paths|).None? ==> r == Failure(IndexError)
    ensures r.Success? ==> PyIndex(idx, |labels|).Some? && r.value.1 == labels[PyIndex(idx, |labels|).value]
    ensures |paths| == |labels| && PyIndex(idx, |paths|).Some? ==>
      var k := PyIndex(idx, |paths|).value;
      (r.Success? <==> load(paths[k]).Some?) &&
      (r.Success? ==> r.value == (load(paths[k]).value, labels[k])) &&
      (r.Failure? ==> r.error == LoadError)
  {
    match PyIndex(idx, |paths|)
    case None => Failure(IndexError)
    case Some(k) =>
      match load(paths[k])
      case None => Failure(LoadError)
      case Some(img) =>
        match PyIndex(idx, |labels|)
        case None => Failure(IndexError)
        case Some(j) => Success((img, labels[j]))
  }

  // ---- train_model ----

  datatype Epoch = Epoch(train: seq<Batch>, val: seq<Batch>)

  predicate Shaped(epochs: seq<Epoch>) {
    forall k :: 0 <= k < |epochs| ==> WellShaped(epochs[k].train) && WellShaped(epochs[k].val)
  }

  /** `train_model` raises ZeroDivisionError when a pass sees no samples. */
  datatype TrainError = ZeroDivision

  /** `best_val_acc` and the epochs at which `best_model.pth` was written. */
  datatype State = State(best: real, saved: seq<nat>)

  /** Neither pass of the epoch is empty, so neither accuracy divides by zero. */
  predicate Completes(e: Epoch)
    requires WellShaped(e.train) && WellShaped(e.val)
  {
    TotalSum(e.train) > 0 && TotalSum(e.val) > 0
  }

  /** The validation accuracy of one epoch, as a percentage. */
  function ValAcc(e: Epoch): (a: real)
    requires WellShaped(e.train) && WellShaped(e.val) && Completes(e)
    ensures 0.0 <= a <= 100.0
  {
    Percent(CorrectSum(e.val), TotalSum(e.val))
  }

  /** The best-accuracy rule for one epoch's validation accuracy. */
  function Advance(s: State, epoch: nat, valAcc: real): State {
    if valAcc > s.best then State(valAcc, s.saved + [epoch]) else s
  }

  /** One epoch: both accuracies, then the best-accuracy rule. */
  function Step(s: State, epoch: nat, e: Epoch): Result<State, TrainError>
    requires WellShaped(e.train) && WellShaped(e.val)
  {
    if !Completes(e) then Failure(ZeroDivision) else Success(Advance(s, epoch, ValAcc(e)))
  }

  /** The rule keeps the best and the checkpoints in step with the accuracies. */
  lemma AdvanceKeepsBest(s: State, accs: seq<real>, valAcc: real)
    requires s.best == MaxFrom(0.0, accs) && s.saved == BestSaves(accs)
    ensures Advance(s, |accs|, valAcc).best == MaxFrom(0.0, accs + [valAcc])
    ensures Advance(s, |accs|, valAcc).saved == BestSaves(accs + [valAcc])
  {
    BestSnoc(accs, valAcc);
  }

  function Run(epochs: seq<Epoch>): Result<State, TrainError>
    requires Shaped(epochs)
  {
    if |epochs| == 0 then Success(State(0.0, []))
    else
      var init := epochs[..|epochs| - 1];
      match Run(init)
      case Failure(e) => Failure(e)
      case Success(s) => Step(s, |init|, epochs[|epochs| - 1])
  }

  /** The validation accuracies of a run in which every epoch completes. */
  function ValAccs(epochs: seq<Epoch>): (r: seq<real>)
    requires Shaped(epochs) && forall k :: 0 <= k < |epochs| ==> Completes(epochs[k])
    ensures |r| == |epochs| && forall k :: 0 <= k < |epochs| ==> r[k] == ValAcc(epochs[k])
  {
    seq(|epochs|, k requires 0 <= k < |epochs| && Shaped(epochs) && Completes(epochs[k]) => ValAcc(epochs[k]))
  }

  /** `train_model` raises exactly when some epoch has an empty pass. */
  lemma {:induction false} RunFails(epochs: seq<Epoch>)
    requires Shaped(epochs)
    ensures Run(epochs).Success? <==> forall k :: 0 <= k < |epochs| ==> Completes(epochs[k])
  {
    if |epochs| > 0 {
      var n := |epochs| - 1;
      var init := epochs[..n];
      RunSnoc(epochs, n);
      assert epochs[..n + 1] == epochs;
      RunFails(init);
      if Run(init).Failure? {
        var k :| 0 <= k < n && !Completes(init[k]);
        assert init[k] == epochs[k];
      } else if Completes(epochs[n]) {
        forall k | 0 <= k < |epochs| ensures Completes(epochs[k]) {
          if k < n { assert init[k] == epochs[k]; }
        }
      }
    }
  }

  /** When it does not raise, `best_val_acc` is the largest validation
      accuracy (or 0.0), and the model is saved exactly at the epochs whose
      accuracy strictly beats 0.0 and every earlier epoch's. */
  lemma {:induction false} RunSpec(epochs: seq<Epoch>)
    requires Shaped(epochs) && forall k :: 0 <= k < |epochs| ==> Completes(epochs[k])
    ensures Run(epochs).Success?
    ensures Run(epochs).value.best == MaxFrom(0.0, ValAccs(epochs))
    ensures Run(epochs).value.saved == BestSaves(ValAccs(epochs))
  {
    if |epochs| > 0 {
      var n := |epochs| - 1;
      var init := epochs[..n];
      RunSnoc(epochs, n);
      assert epochs[..n + 1] == epochs;
      ValAccsSnoc(epochs);
      RunSpec(init);
      var s := Run(init).value;
      var e := epochs[n];
      assert Run(epochs) == Success(Advance(s, n, ValAcc(e)));
      AdvanceKeepsBest(s, ValAccs(init), ValAcc(e));
    }
  }

  lemma ValAccsSnoc(epochs: seq<Epoch>)
    requires Shaped(epochs) && |epochs| > 0 && forall k :: 0 <= k < |epochs| ==> Completes(epochs[k])
    ensures var init := epochs[..|epochs| - 1];
      Shaped(init) && (forall k :: 0 <= k < |init| ==> Completes(init[k])) &&
      ValAccs(epochs) == ValAccs(init) + [ValAcc(epochs[|epochs| - 1])]
  {
    var init := epochs[..|epochs| - 1];
    assert forall k :: 0 <= k < |init| ==> init[k] == epochs[k];
  }

  /** The saving rule in terms of accuracies: a save is a strict
      improvement, and the best never decreases. */
  lemma BestAccuracyRule(epochs: seq<Epoch>, i: nat, j: nat)
    requires Shaped(epochs) && Run(epochs).Success?
    ensures forall k :: 0 <= k < |epochs| ==> Completes(epochs[k])
    ensures i < |epochs| ==>
      (i in Run(epochs).value.saved <==>
        0.0 < ValAcc(epochs[i]) && forall k :: 0 <= k < i ==> ValAcc(epochs[k]) < ValAcc(epochs[i]))
    ensures i <= j <= |epochs| ==> MaxFrom(0.0, ValAccs(epochs)[..i]) <= MaxFrom(0.0, ValAccs(epochs)[..j])
  {
    RunFails(epochs);
    RunSpec(epochs);
    var accs := ValAccs(epochs);
    if i < |epochs| {
      BestSavesSpec(accs, i);
      assert accs[i] == ValAcc(epochs[i]);
      assert forall k :: 0 <= k < i ==> accs[k] == ValAcc(epochs[k]);
    }
    if i <= j <= |epochs| {
      BestMonotone(accs, i, j);
    }
  }

  lemma RunSnoc(epochs: seq<Epoch>, epoch: nat)
    requires Shaped(epochs) && epoch < |epochs|
    ensures Shaped(epochs[..epoch]) && Shaped(epochs[..epoch + 1])
    ensures Run(epochs[..epoch + 1]) ==
      match Run(epochs[..epoch])
      case Failure(e) => Failure(e)
      case Success(s) => Step(s, epoch, epochs[epoch])
  {
    assert epochs[..epoch + 1][..epoch] == epochs[..epoch];
  }

  lemma {:induction false} FailureFinal(epochs: seq<Epoch>, more: seq<Epoch>)
    requires Shaped(epochs) && Shaped(epochs + more) && Run(epochs).Failure?
    ensures Run(epochs + more) == Run(epochs)
    decreases |more|
  {
    if |more| > 0 {
      var init := more[..|more| - 1];
      assert (epochs + more)[..|epochs + more| - 1] == epochs + init;
      assert Shaped(epochs + init) by {
        assert forall k :: 0 <= k < |epochs + init| ==> (epochs + init)[k] == (epochs + more)[k];
      }
      FailureFinal(epochs, init);
    } else {
      assert epochs + more == epochs;
    }
  }
  /** The run that stops after epoch `epoch` is the whole run. */
  lemma FailureFinalAt(epochs: seq<Epoch>, epoch: nat)
    requires Shaped(epochs) && epoch < |epochs| && Shaped(epochs[..epoch + 1])
    requires Run(epochs[..epoch + 1]).Failure?
    ensures Run(epochs) == Run(epochs[..epoch + 1])
  {
    FailureFinal(epochs[..epoch + 1], epochs[epoch + 1..]);
    assert epochs[..epoch + 1] + epochs[epoch + 1..] == epochs;
  }


  /** `train_model(model, train_loader, val_loader, device, epochs)`. */
  method TrainModel(epochs: seq<Epoch>) returns (r: Result<State, TrainError>)
    requires Shaped(epochs)
    ensures r == Run(epochs)
  {
    var bestValAcc := 0.0;
    var saved: seq<nat> := [];
    var epoch := 0;
    while epoch < |epochs|
      invariant 0 <= epoch <= |epochs|
      invariant Run(epochs[..epoch]) == Success(State(bestValAcc, saved))
    {
      RunSnoc(epochs, epoch);
      var e := epochs[epoch];
      var train := Accumulate(e.train);
      var val := Accumulate(e.val);
      if train.total == 0 || val.total == 0 {
        r := Failure(ZeroDivision);
        FailureFinalAt(epochs, epoch);
        return;
      }
      var trainAcc := Percent(train.correct, train.total);
      var valAcc := Percent(val.correct, val.total);
      if valAcc > bestValAcc {
        bestValAcc := valAcc;
        saved := saved + [epoch];
      }
      epoch := epoch + 1;
    }
    assert epochs[..epoch] == epochs;
    r := Success(State(bestValAcc, saved));
  }
}
