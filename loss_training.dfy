/** The epoch loop of `train_and_test` in backend/training.py: checkpoint on
    every strict decrease of the validation loss, stop after seven
    consecutive epochs without one. The network is not modelled: each batch
    is an oracle outcome, either the loss (and, for validation, the batch's
    mean accuracy) or an exception, which the loop reports and skips. */
module LossTraining {
  import opened Common
  import CreateDataset

  /** Early-stopping patience. */
  const Patience: nat := 7

  /** The outcomes of one epoch's batches; None is a batch that raised. */
  datatype Epoch = Epoch(train: seq<Option<real>>, valid: seq<Option<(real, real)>>)

  /** `running_loss`: the losses of the training batches that did not raise. */
  function TrainSum(batches: seq<Option<real>>): real {
    if |batches| == 0 then 0.0
    else
      var last := batches[|batches| - 1];
      TrainSum(batches[..|batches| - 1]) + (if last.Some? then last.value else 0.0)
  }

  /** `test_loss` and `accuracy`: the sums over the validation batches that
      did not raise. */
  function ValidSums(batches: seq<Option<(real, real)>>): (real, real) {
    if |batches| == 0 then (0.0, 0.0)
    else
      var prev := ValidSums(batches[..|batches| - 1]);
      var last := batches[|batches| - 1];
      if last.Some? then (prev.0 + last.value.0, prev.1 + last.value.1) else prev
  }

  /** One epoch's statistics `(train_loss, valid_loss, valid_acc)`, each a
      sum divided by the number of batches of its loader; None when a loader
      is empty, where the division raises ZeroDivisionError and the epoch
      is abandoned. */
  function EpochStats(e: Epoch, trainLen: nat, validLen: nat): (r: Option<(real, real, real)>)
    ensures r.None? <==> trainLen == 0 || validLen == 0
  {
    if trainLen == 0 || validLen == 0 then None
    else
      var v := ValidSums(e.valid);
      Some((TrainSum(e.train) / trainLen as real, v.0 / validLen as real, v.1 / validLen as real))
  }

  /** The loop's variables after some epochs, together with the
      checkpoints written (in order) and whether it broke out. */
  datatype State = State(trainLosses: seq<real>, testLosses: seq<real>, acc: seq<real>,
                         best: Bound, counter: nat, saved: seq<CreateDataset.Checkpoint>, stopped: bool)

  const Start: State := State([], [], [], PosInf, 0, [], false)

  /** One pass of the loop body for epoch number `epoch`. */
  function Step(s: State, epoch: nat, e: Epoch, trainLen: nat, validLen: nat): State {
    match EpochStats(e, trainLen, validLen)
    case None => s
    case Some(st) =>
      var (trainLoss, validLoss, validAcc) := st;
      var s1 := s.(trainLosses := s.trainLosses + [trainLoss], testLosses := s.testLosses + [validLoss],
                   acc := s.acc + [validAcc]);
      if Below(validLoss, s.best) then
        s1.(best := Finite(validLoss), counter := 0, saved := s.saved + [CreateDataset.SaveModel(epoch, validLoss)])
      else
        s1.(counter := s.counter + 1, stopped := s.counter + 1 >= Patience)
  }

  /** The state after running the loop over `epochs`; epochs after the
      break are never looked at. */
  function Run(epochs: seq<Epoch>, trainLen: nat, validLen: nat): State {
    if |epochs| == 0 then Start
    else
      var s := Run(epochs[..|epochs| - 1], trainLen, validLen);
      if s.stopped then s else Step(s, |epochs| - 1, epochs[|epochs| - 1], trainLen, validLen)
  }

  /** The body of the training pass: the sum of the losses of the batches
      that did not raise. */
  method TrainPass(batches: seq<Option<real>>) returns (runningLoss: real)
    ensures runningLoss == TrainSum(batches)
  {
    runningLoss := 0.0;
    var i := 0;
    while i < |batches|
      invariant 0 <= i <= |batches|
      invariant runningLoss == TrainSum(batches[..i])
    {
      assert batches[..i + 1][..i] == batches[..i];
      if batches[i].Some? {
        runningLoss := runningLoss + batches[i].value;
      }
      i := i + 1;
    }
    assert batches[..i] == batches;
  }

  /** The validation pass: the summed losses and batch accuracies. */
  method ValidPass(batches: seq<Option<(real, real)>>) returns (testLoss: real, accuracy: real)
    ensures (testLoss, accuracy) == ValidSums(batches)
  {
    testLoss, accuracy := 0.0, 0.0;
    var i := 0;
    while i < |batches|
      invariant 0 <= i <= |batches|
      invariant (testLoss, accuracy) == ValidSums(batches[..i])
    {
      assert batches[..i + 1][..i] == batches[..i];
      if batches[i].Some? {
        testLoss := testLoss + batches[i].value.0;
        accuracy := accuracy + batches[i].value.1;
      }
      i := i + 1;
    }
    assert batches[..i] == batches;
  }

  /** `train_and_test`: one entry of `epochs` per epoch of `range(num_epochs)`. */
  method TrainAndTest(epochs: seq<Epoch>, trainLen: nat, validLen: nat) returns (s: State)
    ensures s == Run(epochs, trainLen, validLen)
  {
    var trainLosses, testLosses, acc: seq<real> := [], [], [];
    var validLossMin := PosInf;
    var earlyStopCounter := 0;
    var saved: seq<CreateDataset.Checkpoint> := [];
    var epoch := 0;
    while epoch < |epochs|
      invariant 0 <= epoch <= |epochs|
      invariant Run(epochs[..epoch], trainLen, validLen) ==
        State(trainLosses, testLosses, acc, validLossMin, earlyStopCounter, saved, false)
    {
      RunNext(epochs, epoch, trainLen, validLen);
      var runningLoss := TrainPass(epochs[epoch].train);
      var testLoss, accuracy := ValidPass(epochs[epoch].valid);
      if trainLen == 0 || validLen == 0 {
        // ZeroDivisionError, caught by the epoch's handler: next epoch.
        epoch := epoch + 1;
        continue;
      }
      var trainLoss := runningLoss / trainLen as real;
      var validLoss := testLoss / validLen as real;
      var validAcc := accuracy / validLen as real;
      trainLosses := trainLosses + [trainLoss];
      testLosses := testLosses + [validLoss];
      acc := acc + [validAcc];
      if Below(validLoss, validLossMin) {
        saved := saved + [CreateDataset.SaveModel(epoch, validLoss)];
        validLossMin := Finite(validLoss);
        earlyStopCounter := 0;
      } else {
        earlyStopCounter := earlyStopCounter + 1;
        if earlyStopCounter >= Patience {
          s := State(trainLosses, testLosses, acc, validLossMin, earlyStopCounter, saved, true);
          StoppedIsFinal(epochs[..epoch + 1], epochs[epoch + 1..], trainLen, validLen);
          assert epochs[..epoch + 1] + epochs[epoch + 1..] == epochs;
          return;
        }
      }
      epoch := epoch + 1;
    }
    assert epochs[..epoch] == epochs;
    s := State(trainLosses, testLosses, acc, validLossMin, earlyStopCounter, saved, false);
  }

  /** The loop over one more epoch is one more pass of the body, unless
      the loop had already broken out. */
  lemma RunNext(epochs: seq<Epoch>, i: nat, trainLen: nat, validLen: nat)
    requires i < |epochs|
    ensures var s := Run(epochs[..i], trainLen, validLen);
      Run(epochs[..i + 1], trainLen, validLen) == if s.stopped then s else Step(s, i, epochs[i], trainLen, validLen)
  {
    assert epochs[..i + 1][..i] == epochs[..i];
  }

  /** Once the loop has broken out, later epochs change nothing. */
  lemma {:induction false} StoppedIsFinal(epochs: seq<Epoch>, more: seq<Epoch>, trainLen: nat, validLen: nat)
    requires Run(epochs, trainLen, validLen).stopped
    ensures Run(epochs + more, trainLen, validLen) == Run(epochs, trainLen, validLen)
    decreases |more|
  {
    if |more| > 0 {
      var init := more[..|more| - 1];
      StoppedIsFinal(epochs, init, trainLen, validLen);
      assert (epochs + more)[..|epochs + more| - 1] == epochs + init;
    } else {
      assert epochs + more == epochs;
    }
  }

  /** What the loop keeps at every point: the three lists grow in lockstep;
      `best` is infinite exactly when no epoch has completed, and otherwise
      is the smallest validation loss so far; the last checkpoint written
      holds that best loss; the counter is the number of completed epochs
      since the best one, all of which failed to beat it; and the loop has
      broken out exactly when that counter reached the patience. */
  ghost predicate Inv(s: State) {
    |s.trainLosses| == |s.testLosses| == |s.acc| &&
    (s.best.PosInf? <==> |s.testLosses| == 0) &&
    (s.best.Finite? ==> (forall j :: 0 <= j < |s.testLosses| ==> s.best.value <= s.testLosses[j]) &&
                        s.counter < |s.testLosses| &&
                        s.testLosses[|s.testLosses| - 1 - s.counter] == s.best.value) &&
    (forall j :: 0 <= j < |s.testLosses| && |s.testLosses| - s.counter <= j ==> !Below(s.testLosses[j], s.best)) &&
    (|s.saved| > 0 <==> |s.testLosses| > 0) &&
    (|s.saved| > 0 ==> s.saved[|s.saved| - 1].loss.Some? && Finite(s.saved[|s.saved| - 1].loss.value) == s.best) &&
    s.counter <= Patience && (s.stopped <==> s.counter == Patience)
  }

  lemma StepKeepsInv(s: State, epoch: nat, e: Epoch, trainLen: nat, validLen: nat)
    requires Inv(s) && !s.stopped
    ensures Inv(Step(s, epoch, e, trainLen, validLen))
  {
    var t := Step(s, epoch, e, trainLen, validLen);
    if EpochStats(e, trainLen, validLen).Some? {
      var v := EpochStats(e, trainLen, validLen).value.1;
      assert t.testLosses == s.testLosses + [v];
      if Below(v, s.best) {
        assert t.counter == 0 && t.best == Finite(v);
        forall j | 0 <= j < |t.testLosses| ensures v <= t.testLosses[j] {
          if j < |s.testLosses| {
            assert s.best.Finite? ==> s.best.value <= s.testLosses[j];
          }
        }
      } else {
        assert t.counter == s.counter + 1 && t.best == s.best;
      }
    }
  }

  /** Every state the loop reaches satisfies `Inv`. */
  lemma {:induction false} RunInv(epochs: seq<Epoch>, trainLen: nat, validLen: nat)
    ensures Inv(Run(epochs, trainLen, validLen))
  {
    if |epochs| > 0 {
      var init := epochs[..|epochs| - 1];
      RunInv(init, trainLen, validLen);
      if !Run(init, trainLen, validLen).stopped {
        StepKeepsInv(Run(init, trainLen, validLen), |epochs| - 1, epochs[|epochs| - 1], trainLen, validLen);
      }
    }
  }

  /** The `k`-th checkpoint holds a loss strictly below the one before it. */
  predicate Improves(saved: seq<CreateDataset.Checkpoint>, k: nat)
    requires 0 < k < |saved|
  {
    saved[k].loss.Some? && saved[k - 1].loss.Some? && saved[k].loss.value < saved[k - 1].loss.value
  }

  /** A checkpoint is written only on a strict improvement: the losses of
      successive checkpoints strictly decrease, and the number of entries in
      each history list never exceeds the number of epochs run. */
  lemma {:induction false} SavesImprove(epochs: seq<Epoch>, trainLen: nat, validLen: nat)
    ensures var s := Run(epochs, trainLen, validLen);
      forall k :: 0 < k < |s.saved| ==> Improves(s.saved, k)
    ensures |Run(epochs, trainLen, validLen).testLosses| <= |epochs|
  {
    if |epochs| > 0 {
      var init := epochs[..|epochs| - 1];
      SavesImprove(init, trainLen, validLen);
      RunInv(init, trainLen, validLen);
      var s0 := Run(init, trainLen, validLen);
      var s := Run(epochs, trainLen, validLen);
      if s.saved != s0.saved {
        var v := EpochStats(epochs[|epochs| - 1], trainLen, validLen).value.1;
        assert s.saved == s0.saved + [CreateDataset.SaveModel(|epochs| - 1, v)] && Below(v, s0.best);
        forall k | 0 < k < |s.saved| ensures Improves(s.saved, k) {
          if k < |s0.saved| {
            assert Improves(s0.saved, k);
          }
        }
      }
    }
  }

  /** With an empty loader every epoch raises ZeroDivisionError and nothing
      is recorded; with both loaders non-empty the first epoch completes
      and, the best starting at infinity, writes a checkpoint. */
  lemma FirstEpochSaves(epochs: seq<Epoch>, trainLen: nat, validLen: nat)
    requires |epochs| > 0
    ensures trainLen == 0 || validLen == 0 ==> Run(epochs, trainLen, validLen) == Start
    ensures trainLen > 0 && validLen > 0 ==>
      |Run(epochs[..1], trainLen, validLen).saved| == 1 &&
      Run(epochs[..1], trainLen, validLen).saved[0].epoch == Some(0)
  {
    if trainLen == 0 || validLen == 0 {
      EmptyLoaderRecordsNothing(epochs, trainLen, validLen);
    } else {
      assert epochs[..1][..0] == [];
    }
  }

  lemma {:induction false} EmptyLoaderRecordsNothing(epochs: seq<Epoch>, trainLen: nat, validLen: nat)
    requires trainLen == 0 || validLen == 0
    ensures Run(epochs, trainLen, validLen) == Start
  {
    if |epochs| > 0 {
      EmptyLoaderRecordsNothing(epochs[..|epochs| - 1], trainLen, validLen);
    }
  }

  /** The loop breaks exactly after seven consecutive completed epochs that
      did not beat the best: the last seven validation losses are all at or
      above it. */
  lemma StopsAfterPatience(epochs: seq<Epoch>, trainLen: nat, validLen: nat)
    ensures var s := Run(epochs, trainLen, validLen);
      s.stopped ==> (|s.testLosses| > Patience &&
                     forall j :: |s.testLosses| - Patience <= j < |s.testLosses| ==> !Below(s.testLosses[j], s.best))
    ensures var s := Run(epochs, trainLen, validLen);
      !s.stopped ==> s.counter < Patience
  {
    RunInv(epochs, trainLen, validLen);
  }

  /** One loop body: with an empty loader the epoch is abandoned and the
      state is unchanged; otherwise the epoch's three statistics are
      appended, one to each history list. */
  lemma StepAppends(s: State, epoch: nat, e: Epoch, trainLen: nat, validLen: nat)
    ensures EpochStats(e, trainLen, validLen).None? ==> Step(s, epoch, e, trainLen, validLen) == s
    ensures EpochStats(e, trainLen, validLen).Some? ==>
      var st := EpochStats(e, trainLen, validLen).value;
      var t := Step(s, epoch, e, trainLen, validLen);
      t.trainLosses == s.trainLosses + [st.0] && t.testLosses == s.testLosses + [st.1] && t.acc == s.acc + [st.2]
  {
  }

  /** With both loaders non-empty every epoch completes until the break:
      entry `i` of each history list holds epoch `i`'s statistics, and a
      run that did not break has one entry per epoch. */
  lemma {:induction false} HistoryIsStats(epochs: seq<Epoch>, trainLen: nat, validLen: nat)
    requires trainLen > 0 && validLen > 0
    ensures var s := Run(epochs, trainLen, validLen);
      |s.trainLosses| == |s.testLosses| == |s.acc| <= |epochs| &&
      (!s.stopped ==> |s.testLosses| == |epochs|) &&
      forall i :: 0 <= i < |s.testLosses| ==>
        EpochStats(epochs[i], trainLen, validLen) == Some((s.trainLosses[i], s.testLosses[i], s.acc[i]))
  {
    if |epochs| > 0 {
      var init := epochs[..|epochs| - 1];
      HistoryIsStats(init, trainLen, validLen);
      var s0 := Run(init, trainLen, validLen);
      var s := Run(epochs, trainLen, validLen);
      assert forall i :: 0 <= i < |init| ==> epochs[i] == init[i];
      if !s0.stopped {
        StepAppends(s0, |init|, epochs[|init|], trainLen, validLen);
      }
    }
  }

  /** Some checkpoint was written at epoch `i`. */
  predicate SavedAt(saved: seq<CreateDataset.Checkpoint>, i: int) {
    exists k :: 0 <= k < |saved| && saved[k].epoch == Some(i)
  }

  /** The best is below a loss exactly when every recorded loss is. */
  lemma BelowBest(s: State, v: real)
    requires Inv(s)
    ensures Below(v, s.best) <==> forall j :: 0 <= j < |s.testLosses| ==> v < s.testLosses[j]
  {
    if s.best.Finite? {
      assert s.testLosses[|s.testLosses| - 1 - s.counter] == s.best.value;
    }
  }

  /** Every checkpoint names an epoch below `n`. */
  predicate EpochsBelow(saved: seq<CreateDataset.Checkpoint>, n: nat) {
    forall k :: 0 <= k < |saved| ==> saved[k].epoch.Some? && 0 <= saved[k].epoch.value < n
  }

  /** Epoch `i` has a checkpoint exactly when its loss is below every
      earlier one. */
  predicate RuleAt(saved: seq<CreateDataset.Checkpoint>, losses: seq<real>, i: nat)
    requires i < |losses|
  {
    SavedAt(saved, i) <==> forall j :: 0 <= j < i ==> losses[i] < losses[j]
  }

  /** Every checkpoint names a recorded epoch, and epoch `i` has one
      exactly when its validation loss is below every earlier one. */
  ghost predicate FollowsRule(s: State) {
    EpochsBelow(s.saved, |s.testLosses|) &&
    forall i :: 0 <= i < |s.testLosses| ==> RuleAt(s.saved, s.testLosses, i)
  }

  /** A checkpoint list whose epochs are all below `n` has none at `n`. */
  lemma NotSavedAt(saved: seq<CreateDataset.Checkpoint>, n: nat)
    requires EpochsBelow(saved, n)
    ensures !SavedAt(saved, n)
  {
  }

  /** Recording one more loss `v` keeps the rule when a checkpoint for it is
      written exactly when it is below every earlier loss. */
  lemma RuleStep(s0: State, t: State, v: real)
    requires FollowsRule(s0)
    requires t.testLosses == s0.testLosses + [v]
    requires (forall j :: 0 <= j < |s0.testLosses| ==> v < s0.testLosses[j]) ==>
      t.saved == s0.saved + [CreateDataset.SaveModel(|s0.testLosses|, v)]
    requires !(forall j :: 0 <= j < |s0.testLosses| ==> v < s0.testLosses[j]) ==> t.saved == s0.saved
    ensures FollowsRule(t)
  {
    var n := |s0.testLosses|;
    var extra := if t.saved == s0.saved then [] else [CreateDataset.SaveModel(n, v)];
    assert t.saved == s0.saved + extra;
    RuleNewEpoch(s0.saved, s0.testLosses, extra, v);
    forall i | 0 <= i < n ensures RuleAt(t.saved, t.testLosses, i) {
      RuleOldEpoch(s0.saved, s0.testLosses, extra, v, i);
    }
  }

  /** The new epoch obeys the rule, and the checkpoints stay within the
      recorded epochs. */
  lemma RuleNewEpoch(saved: seq<CreateDataset.Checkpoint>, losses: seq<real>,
                     extra: seq<CreateDataset.Checkpoint>, v: real)
    requires EpochsBelow(saved, |losses|)
    requires (forall j :: 0 <= j < |losses| ==> v < losses[j]) ==> extra == [CreateDataset.SaveModel(|losses|, v)]
    requires !(forall j :: 0 <= j < |losses| ==> v < losses[j]) ==> extra == []
    ensures EpochsBelow(saved + extra, |losses| + 1)
    ensures RuleAt(saved + extra, losses + [v], |losses|)
  {
    var n := |losses|;
    var t := saved + extra;
    assert forall k :: 0 <= k < |saved| ==> t[k] == saved[k];
    assert forall j :: 0 <= j < n ==> (losses + [v])[j] == losses[j];
    if extra == [] {
      assert t == saved;
      NotSavedAt(saved, n);
    } else {
      assert t[|saved|].epoch == Some(n);
    }
  }

  /** An earlier epoch keeps its place in the rule. */
  lemma RuleOldEpoch(saved: seq<CreateDataset.Checkpoint>, losses: seq<real>,
                     extra: seq<CreateDataset.Checkpoint>, v: real, i: nat)
    requires i < |losses| && RuleAt(saved, losses, i)
    requires extra == [] || extra == [CreateDataset.SaveModel(|losses|, v)]
    ensures RuleAt(saved + extra, losses + [v], i)
  {
    assert forall j :: 0 <= j <= i ==> (losses + [v])[j] == losses[j];
    SavedAtExtend(saved, saved + extra, |losses|, v, i);
  }

  /** Appending a checkpoint for epoch `n` adds no checkpoint for any
      other epoch. */
  lemma SavedAtExtend(s0: seq<CreateDataset.Checkpoint>, t: seq<CreateDataset.Checkpoint>, n: nat, v: real, i: int)
    requires t == s0 || t == s0 + [CreateDataset.SaveModel(n, v)]
    requires i != n
    ensures SavedAt(t, i) <==> SavedAt(s0, i)
  {
    if SavedAt(t, i) {
      var k :| 0 <= k < |t| && t[k].epoch == Some(i);
      assert k < |s0| && s0[k] == t[k];
    }
    if SavedAt(s0, i) {
      var k :| 0 <= k < |s0| && s0[k].epoch == Some(i);
      assert t[k] == s0[k];
    }
  }

  /** With both loaders non-empty, epoch `i` writes a checkpoint exactly
      when its validation loss is below every earlier one (the best starts
      at infinity, so the first epoch always does), and every checkpoint
      names a completed epoch. */
  lemma {:induction false} CheckpointRule(epochs: seq<Epoch>, trainLen: nat, validLen: nat)
    requires trainLen > 0 && validLen > 0
    ensures FollowsRule(Run(epochs, trainLen, validLen))
  {
    if |epochs| > 0 {
      var init := epochs[..|epochs| - 1];
      CheckpointRule(init, trainLen, validLen);
      HistoryIsStats(init, trainLen, validLen);
      RunInv(init, trainLen, validLen);
      var s0 := Run(init, trainLen, validLen);
      if !s0.stopped {
        var v := EpochStats(epochs[|init|], trainLen, validLen).value.1;
        StepAppends(s0, |init|, epochs[|init|], trainLen, validLen);
        BelowBest(s0, v);
        RuleStep(s0, Run(epochs, trainLen, validLen), v);
      }
    }
  }
}
