/** Class-balance weights for the imbalanced severity grades: the weight of
    a class is total / (K * count). Two variants exist: a dense one over
    `np.bincount` (backend/enhanced_training.py, backend/train.py), where K
    is the largest label plus one and an absent class divides by zero, and a
    sparse one over `value_counts` (backend/model/dataset.py), where K is the
    number of distinct labels and absent classes get no key. */
module ClassBalance {
  import opened Common

  /** `np.bincount` refuses negative input with ValueError. */
  datatype BinCountError = NegativeLabel

  /** One more than the largest label; 0 for no labels. */
  function Width(labels: seq<int>): (k: nat)
    ensures forall i :: 0 <= i < |labels| ==> labels[i] < k
    ensures k > 0 ==> exists i :: 0 <= i < |labels| && labels[i] == k - 1
    ensures |labels| == 0 ==> k == 0
  {
    if |labels| == 0 then 0
    else
      var prev := Width(labels[..|labels| - 1]);
      var last := labels[|labels| - 1];
      if last + 1 > prev then last + 1 else prev
  }

  /** The count of every class below `k`. */
  function Counts(labels: seq<int>, k: nat): (r: seq<nat>)
    ensures |r| == k && forall c :: 0 <= c < k ==> r[c] == Count(labels, c)
  {
    seq(k, c requires 0 <= c < k => Count(labels, c))
  }

  /** `np.bincount(labels)`: one count per class from 0 to the largest label. */
  function BinCount(labels: seq<int>): (r: Result<seq<nat>, BinCountError>)
    ensures r.Failure? <==> exists i :: 0 <= i < |labels| && labels[i] < 0
    ensures r.Success? ==> r.value == Counts(labels, Width(labels))
  {
    if exists i :: 0 <= i < |labels| && labels[i] < 0 then Failure(NegativeLabel)
    else Success(Counts(labels, Width(labels)))
  }

  /** Every non-negative label is counted once: the class counts add up to
      the number of labels, so `total_samples` is their sum. */
  lemma BinCountSum(labels: seq<int>)
    requires BinCount(labels).Success?
    ensures SumNat(BinCount(labels).value) == |labels|
  {
    CountsSum(labels, Width(labels));
  }

  lemma {:induction false} CountsSum(labels: seq<int>, k: nat)
    requires forall i :: 0 <= i < |labels| ==> 0 <= labels[i] < k
    ensures SumNat(Counts(labels, k)) == |labels|
  {
    if |labels| > 0 {
      var prev := labels[..|labels| - 1];
      var x := labels[|labels| - 1];
      CountsSum(prev, k);
      var a := Counts(prev, k);
      var b := Counts(labels, k);
      forall c | 0 <= c < k ensures b[c] == a[c] + (if c == x then 1 else 0) {
        assert Count(labels, c) == Count(prev, c) + (if x == c then 1 else 0);
      }
      SumIncrement(a, b, x);
    } else {
      SumZeros(Counts(labels, k));
    }
  }

  lemma {:induction false} SumZeros(s: seq<nat>)
    requires forall c :: 0 <= c < |s| ==> s[c] == 0
    ensures SumNat(s) == 0
  {
    if |s| > 0 {
      SumZeros(s[..|s| - 1]);
    }
  }

  /** Adding one at position `x` adds one to the sum. */
  lemma {:induction false} SumIncrement(a: seq<nat>, b: seq<nat>, x: nat)
    requires |a| == |b| && x < |a|
    requires forall c :: 0 <= c < |a| ==> b[c] == a[c] + (if c == x then 1 else 0)
    ensures SumNat(b) == SumNat(a) + 1
  {
    var n := |a| - 1;
    if n == x {
      assert a[..n] == b[..n];
    } else {
      SumIncrement(a[..n], b[..n], x);
    }
  }

  /** `total / (K * count)`, over the reals. */
  function Weight(total: nat, k: nat, n: nat): real
    requires k > 0 && n > 0
  {
    total as real / (k as real * n as real)
  }

  /** Weight times count is `total / K` whatever the count. */
  lemma WeightTimesCount(total: nat, k: nat, n: nat, q: real)
    requires k > 0 && n > 0 && q == Weight(total, k, n)
    ensures q * n as real == total as real / k as real
  {
    assert q * (k as real * n as real) == total as real;
    assert (q * n as real) * k as real == total as real;
  }

  /** The total weight a class carries: its weight times its count. */
  function Mass(q: real, n: nat): real {
    q * n as real
  }

  /** Two classes weighted this way carry the same total weight. */
  lemma BalancedPair(total: nat, k: nat, na: nat, nb: nat, qa: real, qb: real)
    requires k > 0 && na > 0 && nb > 0 && qa == Weight(total, k, na) && qb == Weight(total, k, nb)
    ensures Mass(qa, na) == Mass(qb, nb) == total as real / k as real
  {
    WeightTimesCount(total, k, na, qa);
    WeightTimesCount(total, k, nb, qb);
  }

  /** With a positive total, a smaller count gives a strictly larger weight. */
  lemma WeightAntitone(total: nat, k: nat, na: nat, nb: nat)
    requires total > 0 && k > 0 && 0 < na < nb
    ensures Weight(total, k, na) > Weight(total, k, nb)
  {
    var wa, wb := Weight(total, k, na), Weight(total, k, nb);
    WeightTimesCount(total, k, na, wa);
    WeightTimesCount(total, k, nb, wb);
    assert wa * na as real == wb * nb as real;
    assert wb > 0.0;
    if wa <= wb {
      assert wa * na as real <= wb * na as real;
      assert wb * na as real < wb * nb as real;
    }
  }

  /** `total / (K * count)` per class, as a float: a zero count divides by
      zero and numpy gives `inf`. */
  function DenseWeights(counts: seq<nat>, total: nat): (w: seq<Bound>)
    ensures |w| == |counts|
    ensures forall c :: 0 <= c < |counts| ==> (w[c].PosInf? <==> counts[c] == 0)
    ensures forall c :: 0 <= c < |counts| && counts[c] > 0 ==> w[c].value == Weight(total, |counts|, counts[c])
  {
    seq(|counts|, c requires 0 <= c < |counts| =>
      if counts[c] == 0 then PosInf else Finite(Weight(total, |counts|, counts[c])))
  }

  /** The class weights of the training scripts: `np.bincount` over the
      labels, and the dense weights with the number of labels as total. */
  function BinCountWeights(labels: seq<int>): (r: Result<seq<Bound>, BinCountError>)
    ensures r.Failure? <==> exists i :: 0 <= i < |labels| && labels[i] < 0
    ensures r.Success? ==> |r.value| == Width(labels)
  {
    match BinCount(labels)
    case Failure(e) => Failure(e)
    case Success(counts) => Success(DenseWeights(counts, |labels|))
  }

  /** Every present class gets the weight total / (K * count), with K the
      largest label plus one; by `WeightTimesCount` weight times count is
      then total / K for all of them. */
  lemma DenseBalance(labels: seq<int>, c: nat)
    requires BinCountWeights(labels).Success? && c < Width(labels) && Count(labels, c) > 0
    ensures BinCountWeights(labels).value[c].Finite?
    ensures BinCountWeights(labels).value[c] == Finite(Weight(|labels|, Width(labels), Count(labels, c)))
  {
    var counts := BinCount(labels).value;
    assert counts[c] == Count(labels, c);
    var w := DenseWeights(counts, |labels|);
    assert BinCountWeights(labels).value == w;
    assert w[c] == Finite(Weight(|labels|, Width(labels), Count(labels, c)));
  }

  /** A rarer present class gets a strictly larger weight. */
  lemma DenseRarerHeavier(labels: seq<int>, a: nat, b: nat)
    requires BinCountWeights(labels).Success? && a < Width(labels) && b < Width(labels)
    requires 0 < Count(labels, a) < Count(labels, b)
    ensures BinCountWeights(labels).value[a].value > BinCountWeights(labels).value[b].value
  {
    WeightAntitone(|labels|, Width(labels), Count(labels, a), Count(labels, b));
  }

  /** The weighting balances the classes: every present class carries the
      same total weight, weight times count, namely total / K. */
  lemma DenseBalanced(labels: seq<int>, a: nat, b: nat)
    requires BinCountWeights(labels).Success? && a < Width(labels) && b < Width(labels)
    requires Count(labels, a) > 0 && Count(labels, b) > 0
    ensures var w := BinCountWeights(labels).value;
      Mass(w[a].value, Count(labels, a)) == Mass(w[b].value, Count(labels, b)) ==
      |labels| as real / Width(labels) as real
  {
    var w := BinCountWeights(labels).value;
    DenseBalance(labels, a);
    DenseBalance(labels, b);
    BalancedPair(|labels|, Width(labels), Count(labels, a), Count(labels, b), w[a].value, w[b].value);
  }

  /** `labels.value_counts()`: a count for every label that occurs. */
  function ValueCounts(labels: seq<int>): (m: map<int, nat>)
    ensures forall c :: c in m <==> c in labels
    ensures forall c :: c in m ==> m[c] == Count(labels, c) && m[c] > 0
  {
    if |labels| == 0 then map[]
    else
      var prev := labels[..|labels| - 1];
      var x := labels[|labels| - 1];
      var m := ValueCounts(prev);
      assert labels == prev + [x];
      CountPositive(prev, x);
      if x in m then m[x := m[x] + 1] else m[x := 1]
  }

  /** `_calculate_class_weights`: `total / (len(class_counts) * count)` for
      every class that occurs, with the number of rows as total. */
  function SparseWeights(labels: seq<int>): (w: map<int, real>)
    ensures forall c :: c in w <==> c in labels
    ensures forall c :: c in w ==> (|ValueCounts(labels)| > 0 && Count(labels, c) > 0 &&
      w[c] == Weight(|labels|, |ValueCounts(labels)|, Count(labels, c)))
  {
    var counts := ValueCounts(labels);
    map c | c in counts :: Weight(|labels|, |counts|, counts[c])
  }

  /** A rarer class gets a strictly larger sparse weight. */
  lemma SparseRarerHeavier(labels: seq<int>, a: int, b: int)
    requires a in labels && b in labels && Count(labels, a) < Count(labels, b)
    ensures SparseWeights(labels)[a] > SparseWeights(labels)[b]
  {
    WeightAntitone(|labels|, |ValueCounts(labels)|, Count(labels, a), Count(labels, b));
  }

  /** The sparse weighting balances the classes too: weight times count is
      total / K for every class that occurs, K the number of distinct
      labels. */
  lemma SparseBalanced(labels: seq<int>, a: int, b: int)
    requires a in labels && b in labels
    ensures var w := SparseWeights(labels);
      Mass(w[a], Count(labels, a)) == Mass(w[b], Count(labels, b)) ==
      |labels| as real / |ValueCounts(labels)| as real
  {
    var w := SparseWeights(labels);
    BalancedPair(|labels|, |ValueCounts(labels)|, Count(labels, a), Count(labels, b), w[a], w[b]);
  }

  /** `sample_weights`: the class weight of every row's label, in row order. */
  function SampleWeights(labels: seq<int>, weights: map<int, real>): (r: seq<real>)
    requires forall i :: 0 <= i < |labels| ==> labels[i] in weights
    ensures |r| == |labels| && forall i :: 0 <= i < |labels| ==> r[i] == weights[labels[i]]
  {
    if |labels| == 0 then []
    else SampleWeights(labels[..|labels| - 1], weights) + [weights[labels[|labels| - 1]]]
  }

  /** `DRDataset.__len__`: the number of manifest rows, which in training
      mode is also the number of sample weights, since every row's label
      has a class weight. */
  function DatasetLen(labels: seq<int>): (n: nat)
    ensures n == |labels|
    ensures n == |SampleWeights(labels, SparseWeights(labels))|
  {
    |labels|
  }
}
