/** `test_model` in backend/test_accuracy.py: every test batch is scored
    under nine views (the original, two flips, four rotations, a colour
    jitter and a centre crop), the nine score vectors are averaged with
    fixed weights, the class with the highest averaged score is predicted,
    and correct/total counters and the prediction and label lists are kept
    across batches. The network's scores for each view are inputs. */
module Tta {
  import opened Common
  import opened Tally

  /** The class scores of one sample under one view. */
  type Vector = seq<real>

  const BaseWeight: real := 1.0
  const FlipWeight: real := 0.8
  const RotationWeight: real := 0.6
  const ColorWeight: real := 0.7
  const CropWeight: real := 0.7

  /** The coefficient applied to each of the nine views, in view order. */
  const Weights: seq<real> := [BaseWeight, FlipWeight, FlipWeight,
                               RotationWeight, RotationWeight, RotationWeight, RotationWeight,
                               ColorWeight, CropWeight]

  /** `total_weight`. */
  function TotalWeight(): (w: real)
    ensures w == 6.4 && w == SumReal(Weights)
  {
    SumWeights();
    BaseWeight + 2.0 * FlipWeight + 4.0 * RotationWeight + ColorWeight + CropWeight
  }

  lemma SumWeights()
    ensures SumReal(Weights) == 6.4
  {
    var w := Weights;
    assert w[..0] == [];
    SumRealSnoc(w, 0); SumRealSnoc(w, 1); SumRealSnoc(w, 2);
    SumRealSnoc(w, 3); SumRealSnoc(w, 4); SumRealSnoc(w, 5);
    SumRealSnoc(w, 6); SumRealSnoc(w, 7); SumRealSnoc(w, 8);
    assert w[..9] == w;
  }

  lemma SumRealSnoc(s: seq<real>, n: nat)
    requires n < |s|
    ensures SumReal(s[..n + 1]) == SumReal(s[..n]) + s[n]
  {
    assert s[..n + 1][..n] == s[..n];
  }

  /** Nine score vectors over the same `k` classes. */
  predicate Views(outs: seq<Vector>, k: nat) {
    |outs| == 9 && forall v :: 0 <= v < 9 ==> |outs[v]| == k
  }

  /** Column `c` of the nine views: the score of class `c` under each. */
  function Column(outs: seq<Vector>, k: nat, c: nat): (col: seq<real>)
    requires Views(outs, k) && c < k
    ensures |col| == 9 && forall v :: 0 <= v < 9 ==> col[v] == outs[v][c]
  {
    seq(9, v requires 0 <= v < 9 => outs[v][c])
  }

  /** `sum(w[i] * x[i])`. */
  function Dot(w: seq<real>, x: seq<real>): real
    requires |w| == |x|
  {
    if |w| == 0 then 0.0 else Dot(w[..|w| - 1], x[..|x| - 1]) + w[|w| - 1] * x[|x| - 1]
  }

  /** `weighted_sum / total_weight`, grouped as the source groups it. */
  function Combine(outs: seq<Vector>, k: nat): (r: Vector)
    requires Views(outs, k)
    ensures |r| == k
  {
    seq(k, c requires 0 <= c < k =>
      (BaseWeight * outs[0][c] + FlipWeight * (outs[1][c] + outs[2][c]) +
       RotationWeight * (outs[3][c] + outs[4][c] + outs[5][c] + outs[6][c]) +
       ColorWeight * outs[7][c] + CropWeight * outs[8][c]) / TotalWeight())
  }

  /** The combined score of every class is the weighted mean of its nine
      scores, each view weighted by its coefficient. */
  lemma CombineIsWeightedMean(outs: seq<Vector>, k: nat, c: nat)
    requires Views(outs, k) && c < k
    ensures SumReal(Weights) == 6.4
    ensures Combine(outs, k)[c] == Dot(Weights, Column(outs, k, c)) / SumReal(Weights)
  {
    SumWeights();
    var col := Column(outs, k, c);
    WeightedColumn(col);
    assert Combine(outs, k)[c] ==
      (BaseWeight * col[0] + FlipWeight * (col[1] + col[2]) +
       RotationWeight * (col[3] + col[4] + col[5] + col[6]) +
       ColorWeight * col[7] + CropWeight * col[8]) / TotalWeight();
  }

  /** The nine products of the weights with one column, written out. */
  lemma WeightedColumn(x: seq<real>)
    requires |x| == 9
    ensures Dot(Weights, x) == BaseWeight * x[0] + FlipWeight * (x[1] + x[2]) +
                               RotationWeight * (x[3] + x[4] + x[5] + x[6]) +
                               ColorWeight * x[7] + CropWeight * x[8]
  {
    var w := Weights;
    assert w[..0] == [] && x[..0] == [];
    DotSnoc(w, x, 0); DotSnoc(w, x, 1); DotSnoc(w, x, 2);
    DotSnoc(w, x, 3); DotSnoc(w, x, 4); DotSnoc(w, x, 5);
    DotSnoc(w, x, 6); DotSnoc(w, x, 7); DotSnoc(w, x, 8);
    assert w[..9] == w && x[..9] == x;
  }

  lemma DotSnoc(w: seq<real>, x: seq<real>, n: nat)
    requires |w| == |x| && n < |w|
    ensures Dot(w[..n + 1], x[..n + 1]) == Dot(w[..n], x[..n]) + w[n] * x[n]
  {
    assert w[..n + 1][..n] == w[..n] && x[..n + 1][..n] == x[..n];
  }

  /** The weights add up to `total_weight`, so nine equal views combine to
      that same vector. */
  lemma CombineSame(outs: seq<Vector>, k: nat, x: Vector)
    requires Views(outs, k) && |x| == k && forall v :: 0 <= v < 9 ==> outs[v] == x
    ensures Combine(outs, k) == x
  {
    forall c | 0 <= c < k ensures Combine(outs, k)[c] == x[c] {
      var y := x[c];
      assert Combine(outs, k)[c] ==
        (BaseWeight * outs[0][c] + FlipWeight * (outs[1][c] + outs[2][c]) +
         RotationWeight * (outs[3][c] + outs[4][c] + outs[5][c] + outs[6][c]) +
         ColorWeight * outs[7][c] + CropWeight * outs[8][c]) / TotalWeight();
      assert outs[0][c] == x[c] && outs[1][c] == x[c] && outs[2][c] == x[c];
      assert outs[3][c] == x[c] && outs[4][c] == x[c] && outs[5][c] == x[c];
      assert outs[6][c] == x[c] && outs[7][c] == x[c] && outs[8][c] == x[c];
    }
  }

  /** `torch.max(outputs, 1)[1]` for one sample: the index of the largest
      score, the first one on ties. */
  function Argmax(x: Vector): (i: nat)
    requires |x| > 0
    ensures i < |x|
    ensures forall j :: 0 <= j < |x| ==> x[j] <= x[i]
    ensures forall j :: 0 <= j < i ==> x[j] < x[i]
  {
    if |x| == 1 then 0
    else
      var i := Argmax(x[..|x| - 1]);
      assert forall j :: 0 <= j < |x| - 1 ==> x[..|x| - 1][j] == x[j];
      if x[|x| - 1] > x[i] then |x| - 1 else i
  }

  /** The arg-max is unique given its two properties. */
  lemma ArgmaxUnique(x: Vector, i: nat)
    requires |x| > 0 && i < |x|
    requires forall j :: 0 <= j < |x| ==> x[j] <= x[i]
    requires forall j :: 0 <= j < i ==> x[j] < x[i]
    ensures Argmax(x) == i
  {
  }

  /** One test sample: its nine views and its true label. */
  datatype Sample = Sample(outs: seq<Vector>, truth: int)

  /** The predicted class of a sample. */
  function Predict(s: Sample, k: nat): (p: int)
    requires k > 0 && Views(s.outs, k)
    ensures 0 <= p < k
  {
    Argmax(Combine(s.outs, k))
  }

  /** When the nine views agree, the prediction is that view's arg-max. */
  lemma PredictSame(s: Sample, k: nat)
    requires k > 0 && Views(s.outs, k)
    requires forall v :: 0 <= v < 9 ==> s.outs[v] == s.outs[0]
    ensures Predict(s, k) == Argmax(s.outs[0])
  {
    CombineSame(s.outs, k, s.outs[0]);
  }

  predicate WellFormed(batches: seq<seq<Sample>>, k: nat) {
    k > 0 && forall b, i :: 0 <= b < |batches| && 0 <= i < |batches[b]| ==> Views(batches[b][i].outs, k)
  }

  /** The predictions of one batch. */
  function BatchPredictions(batch: seq<Sample>, k: nat): (r: seq<int>)
    requires k > 0 && forall i :: 0 <= i < |batch| ==> Views(batch[i].outs, k)
    ensures |r| == |batch| && forall i :: 0 <= i < |batch| ==> r[i] == Predict(batch[i], k)
  {
    seq(|batch|, i requires 0 <= i < |batch| && k > 0 && Views(batch[i].outs, k) => Predict(batch[i], k))
  }

  /** The labels of one batch. */
  function BatchLabels(batch: seq<Sample>): (r: seq<int>)
    ensures |r| == |batch| && forall i :: 0 <= i < |batch| ==> r[i] == batch[i].truth
  {
    seq(|batch|, i requires 0 <= i < |batch| => batch[i].truth)
  }

  /** `all_predictions` after the given batches. */
  function AllPredictions(batches: seq<seq<Sample>>, k: nat): (r: seq<int>)
    requires WellFormed(batches, k)
  {
    if |batches| == 0 then []
    else
      var init := batches[..|batches| - 1];
      assert WellFormed(init, k) by {
        assert forall b :: 0 <= b < |init| ==> init[b] == batches[b];
      }
      AllPredictions(init, k) + BatchPredictions(batches[|batches| - 1], k)
  }

  /** `all_labels` after the given batches. */
  function AllLabels(batches: seq<seq<Sample>>): (r: seq<int>) {
    if |batches| == 0 then [] else AllLabels(batches[..|batches| - 1]) + BatchLabels(batches[|batches| - 1])
  }

  /** The two lists always have the same length. */
  lemma {:induction false} Lockstep(batches: seq<seq<Sample>>, k: nat)
    requires WellFormed(batches, k)
    ensures |AllPredictions(batches, k)| == |AllLabels(batches)|
  {
    if |batches| > 0 {
      var init := batches[..|batches| - 1];
      assert WellFormed(init, k) by {
        assert forall b :: 0 <= b < |init| ==> init[b] == batches[b];
      }
      Lockstep(init, k);
    }
  }

  /** Matches over two concatenations add up. */
  lemma {:induction false} MatchesAppend(a: seq<int>, b: seq<int>, c: seq<int>, d: seq<int>)
    requires |a| == |c| && |b| == |d|
    ensures Matches(a + b, c + d) == Matches(a, c) + Matches(b, d)
    decreases |b|
  {
    if |b| > 0 {
      var n := |b| - 1;
      MatchesAppend(a, b[..n], c, d[..n]);
      assert (a + b)[..|a + b| - 1] == a + b[..n];
      assert (c + d)[..|c + d| - 1] == c + d[..n];
    } else {
      assert a + b == a && c + d == c;
    }
  }

  /** `test_model` raises ZeroDivisionError when no sample was seen, and
      the classification report raises ValueError when it finds a number of
      classes other than the number of class names. */
  datatype TestError = ZeroDivision | ClassCountMismatch

  /** The accuracy `test_model` returns, and the two lists it reports on. */
  datatype Report = Report(accuracy: real, predictions: seq<int>, labels: seq<int>)

  /** The `target_names` given to the classification report. */
  const ClassNames: seq<string> := ["No DR", "Mild DR", "Moderate DR", "Severe DR", "Proliferative DR"]

  /** The classes the report finds when it is not given `labels`: every
      value among the true labels and the predictions. */
  function Classes(predictions: seq<int>, labels: seq<int>): set<int> {
    set x | x in predictions + labels
  }

  /** `classification_report(labels, predictions, target_names=ClassNames)`
      does not raise. */
  predicate ReportAccepts(predictions: seq<int>, labels: seq<int>) {
    |Classes(predictions, labels)| == |ClassNames|
  }

  /** With every value a grade, the report is accepted exactly when each of
      the five grades occurs among the labels or the predictions. */
  lemma ReportNeedsEveryGrade(predictions: seq<int>, labels: seq<int>)
    requires forall x :: x in predictions + labels ==> 0 <= x < |ClassNames|
    ensures ReportAccepts(predictions, labels) <==> forall g :: 0 <= g < |ClassNames| ==> g in predictions + labels
  {
    var c := Classes(predictions, labels);
    var grades: set<int> := {0, 1, 2, 3, 4};
    assert |grades| == 5;
    forall x | x in c
      ensures x in grades
    {
      assert 0 <= x < 5;
    }
    if forall g :: 0 <= g < |ClassNames| ==> g in predictions + labels {
      assert c == grades;
    } else {
      var g :| 0 <= g < |ClassNames| && g !in predictions + labels;
      assert grades == (grades - {g}) + {g};
      assert c <= grades - {g};
      SubsetCard(c, grades - {g});
    }
  }

  /** A subset is no larger than its superset. */
  lemma SubsetCard(a: set<int>, b: set<int>)
    requires a <= b
    ensures |a| <= |b|
  {
    assert b == a + (b - a);
    assert a * (b - a) == {};
  }

  /** A single test sample never names five classes, so the report raises. */
  lemma OneSampleReportRaises(prediction: int, truth: int)
    ensures !ReportAccepts([prediction], [truth])
  {
    assert Classes([prediction], [truth]) == {prediction, truth};
  }

  /** The loop over the test loader, the final accuracy and the check the
      classification report makes before `test_model` returns. */
  method TestModel(batches: seq<seq<Sample>>, k: nat) returns (r: Result<Report, TestError>)
    requires WellFormed(batches, k)
    ensures r.Failure? <==> |AllLabels(batches)| == 0 || !ReportAccepts(AllPredictions(batches, k), AllLabels(batches))
    ensures r.Failure? ==> (r.error == ZeroDivision <==> |AllLabels(batches)| == 0)
    ensures r.Success? ==>
      r.value.predictions == AllPredictions(batches, k) && r.value.labels == AllLabels(batches) &&
      |r.value.predictions| == |r.value.labels| &&
      Matches(r.value.predictions, r.value.labels) <= |r.value.labels| &&
      r.value.accuracy == Percent(Matches(r.value.predictions, r.value.labels), |r.value.labels|)
  {
    var allPredictions: seq<int> := [];
    var allLabels: seq<int> := [];
    var correct := 0;
    var total := 0;
    var b := 0;
    while b < |batches|
      invariant 0 <= b <= |batches|
      invariant WellFormed(batches[..b], k)
      invariant allPredictions == AllPredictions(batches[..b], k) && allLabels == AllLabels(batches[..b])
      invariant |allPredictions| == |allLabels| == total
      invariant correct == Matches(allPredictions, allLabels)
    {
      assert batches[..b + 1][..b] == batches[..b];
      assert WellFormed(batches[..b + 1], k) by {
        assert forall j :: 0 <= j < b + 1 ==> batches[..b + 1][j] == batches[j];
      }
      var batch := batches[b];
      var predicted := BatchPredictions(batch, k);
      var labels := BatchLabels(batch);
      total := total + |labels|;
      MatchesAppend(allPredictions, predicted, allLabels, labels);
      correct := correct + Matches(predicted, labels);
      allPredictions := allPredictions + predicted;
      allLabels := allLabels + labels;
      b := b + 1;
    }
    assert batches[..b] == batches;
    if total == 0 {
      return Failure(ZeroDivision);
    }
    var accuracy := Percent(correct, total);
    if !ReportAccepts(allPredictions, allLabels) {
      return Failure(ClassCountMismatch);
    }
    r := Success(Report(accuracy, allPredictions, allLabels));
  }
}
