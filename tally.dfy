/** The per-epoch counters every training loop keeps: a running loss, the
    number of samples seen and the number predicted correctly. A batch is
    what the loop reads from one step: the loss `criterion` returned, the
    arg-max predictions and the targets; the network itself is not
    modelled. */
module Tally {
  import opened Common

  datatype Batch = Batch(loss: real, predicted: seq<int>, targets: seq<int>)

  /** `predicted.eq(targets).sum().item()`: positions where the two agree. */
  function Matches(predicted: seq<int>, targets: seq<int>): (m: nat)
    requires |predicted| == |targets|
    ensures m <= |targets|
    ensures m == |targets| <==> predicted == targets
  {
    if |targets| == 0 then 0
    else
      var n := |targets| - 1;
      var prev := Matches(predicted[..n], targets[..n]);
      if predicted[n] == targets[n] then
        assert predicted == targets ==> predicted[..n] == targets[..n];
        assert predicted[..n] == targets[..n] ==> predicted == predicted[..n] + [predicted[n]] && targets == targets[..n] + [targets[n]];
        prev + 1
      else prev
  }

  /** The shapes agree in every batch (torch would raise otherwise). */
  predicate WellShaped(batches: seq<Batch>) {
    forall k :: 0 <= k < |batches| ==> |batches[k].predicted| == |batches[k].targets|
  }

  /** Sum of `loss.item()` over the batches. */
  function LossSum(batches: seq<Batch>): real {
    if |batches| == 0 then 0.0 else LossSum(batches[..|batches| - 1]) + batches[|batches| - 1].loss
  }

  /** Sum of `targets.size(0)`. */
  function TotalSum(batches: seq<Batch>): nat {
    if |batches| == 0 then 0 else TotalSum(batches[..|batches| - 1]) + |batches[|batches| - 1].targets|
  }

  /** Sum of the matches. */
  function CorrectSum(batches: seq<Batch>): (c: nat)
    requires WellShaped(batches)
    ensures c <= TotalSum(batches)
  {
    if |batches| == 0 then 0
    else
      var last := batches[|batches| - 1];
      CorrectSum(batches[..|batches| - 1]) + Matches(last.predicted, last.targets)
  }

  /** The counters after one pass over a loader. */
  datatype Counters = Counters(loss: real, correct: nat, total: nat)

  /** One pass over a loader, as the loops of the training scripts run it:
      every batch adds its loss, its size and its matches. */
  method Accumulate(batches: seq<Batch>) returns (c: Counters)
    requires WellShaped(batches)
    ensures c == Counters(LossSum(batches), CorrectSum(batches), TotalSum(batches))
    ensures c.correct <= c.total
    ensures c.total == 0 <==> forall k :: 0 <= k < |batches| ==> |batches[k].targets| == 0
  {
    var loss, correct, total := 0.0, 0, 0;
    var i := 0;
    while i < |batches|
      invariant 0 <= i <= |batches|
      invariant loss == LossSum(batches[..i])
      invariant correct == CorrectSum(batches[..i]) && total == TotalSum(batches[..i])
      invariant total == 0 <==> forall k :: 0 <= k < i ==> |batches[k].targets| == 0
    {
      var b := batches[i];
      assert batches[..i + 1][..i] == batches[..i];
      loss := loss + b.loss;
      total := total + |b.targets|;
      correct := correct + Matches(b.predicted, b.targets);
      i := i + 1;
    }
    assert batches[..i] == batches;
    c := Counters(loss, correct, total);
  }

  /** `100. * correct / total`: a percentage. */
  function Percent(correct: nat, total: nat): (p: real)
    requires 0 < total && correct <= total
    ensures 0.0 <= p <= 100.0
    ensures p == 100.0 <==> correct == total
    ensures p == 0.0 <==> correct == 0
  {
    100.0 * Fraction(correct, total)
  }

  /** `correct / total`: a fraction. */
  function Fraction(correct: nat, total: nat): (p: real)
    requires 0 < total && correct <= total
    ensures 0.0 <= p <= 1.0
    ensures p == 1.0 <==> correct == total
    ensures p == 0.0 <==> correct == 0
  {
    var p := correct as real / total as real;
    FractionFacts(correct as real, total as real, p);
    p
  }

  /** The quotient of a part by a positive whole lies between 0 and 1 and
      reaches each end exactly when the part does. */
  lemma FractionFacts(c: real, t: real, p: real)
    requires 0.0 < t && 0.0 <= c <= t && p == c / t
    ensures 0.0 <= p <= 1.0
    ensures p == 1.0 <==> c == t
    ensures p == 0.0 <==> c == 0.0
  {
    assert p * t == c;
  }

  /** The targets of a loader's batches are its samples' labels cut into
      batches; so the total counted in a pass is the number of samples. */
  lemma {:induction false} TotalCountsSamples(batches: seq<Batch>, labels: seq<int>)
    requires |batches| > 0 ==> labels == Targets(batches)
    requires |batches| == 0 ==> labels == []
    ensures TotalSum(batches) == |labels|
  {
    if |batches| > 0 {
      var init := batches[..|batches| - 1];
      TotalCountsSamples(init, Targets(init));
    }
  }

  /** All the targets, in batch order. */
  function Targets(batches: seq<Batch>): seq<int> {
    if |batches| == 0 then [] else Targets(batches[..|batches| - 1]) + batches[|batches| - 1].targets
  }

  /** The completed epochs (positions in `accs`) at which a rule that keeps
      the best accuracy, starting from 0.0, and saves on a strict
      improvement writes a checkpoint. */
  function BestSaves(accs: seq<real>): (r: seq<nat>)
    ensures forall k :: 0 <= k < |r| ==> r[k] < |accs|
    ensures forall k, l :: 0 <= k < l < |r| ==> r[k] < r[l]
  {
    if |accs| == 0 then []
    else
      var init := accs[..|accs| - 1];
      BestSaves(init) + (if accs[|accs| - 1] > MaxFrom(0.0, init) then [|init|] else [])
  }

  /** One more epoch: the best becomes the larger of the two, and a save is
      appended exactly when the new accuracy beats the old best. */
  lemma BestSnoc(accs: seq<real>, a: real)
    ensures MaxFrom(0.0, accs + [a]) == MaxReal(MaxFrom(0.0, accs), a)
    ensures BestSaves(accs + [a]) == BestSaves(accs) + (if a > MaxFrom(0.0, accs) then [|accs|] else [])
  {
    assert (accs + [a])[..|accs|] == accs;
  }

  /** An epoch saves exactly when its accuracy beats 0.0 and every earlier
      accuracy. */
  lemma {:induction false} BestSavesSpec(accs: seq<real>, i: nat)
    requires i < |accs|
    ensures i in BestSaves(accs) <==> accs[i] > MaxFrom(0.0, accs[..i])
    ensures i in BestSaves(accs) ==> 0.0 < accs[i] && forall j :: 0 <= j < i ==> accs[j] < accs[i]
    ensures i !in BestSaves(accs) ==> accs[i] <= 0.0 || exists j :: 0 <= j < i && accs[i] <= accs[j]
  {
    var init := accs[..|accs| - 1];
    if i < |init| {
      BestSavesSpec(init, i);
      assert init[..i] == accs[..i];
    } else {
      assert init == accs[..i];
    }
    assert forall j :: 0 <= j < i ==> accs[j] == accs[..i][j];
  }

  /** The best kept never decreases from one epoch to the next. */
  lemma {:induction false} BestMonotone(accs: seq<real>, i: nat, j: nat)
    requires i <= j <= |accs|
    ensures MaxFrom(0.0, accs[..i]) <= MaxFrom(0.0, accs[..j])
    decreases j - i
  {
    if i < j {
      BestMonotone(accs, i + 1, j);
      assert accs[..i + 1][..i] == accs[..i];
    }
  }
}
