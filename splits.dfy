/** How the training scripts divide a dataset: a shuffled index list cut
    into a validation prefix and a training suffix (backend/training.py),
    `torch.utils.data.random_split` with explicit lengths
    (backend/enhanced_training.py, backend/train.py), and the batching of a
    DataLoader. The shuffle is an oracle: any permutation of the indices. */
module Splits {
  import opened Common

  /** `perm` holds each index below `n` exactly once. */
  predicate IsPermutation(perm: seq<nat>, n: nat) {
    multiset(perm) == multiset(Range(n))
  }

  lemma PermutationMembers(perm: seq<nat>, n: nat, x: nat)
    requires IsPermutation(perm, n)
    ensures |perm| == n
    ensures x in perm <==> x < n
    ensures multiset(perm)[x] == (if x < n then 1 else 0)
  {
    RangeMultiplicity(n, x);
    assert |perm| == |multiset(perm)| == |multiset(Range(n))| == n;
  }

  /** `int(np.floor(0.2 * num_train))`, exactly. */
  function ValidCount(n: nat): (s: nat)
    ensures s <= n && 5 * s <= n < 5 * s + 5
  {
    n / 5
  }

  /** `train_idx, valid_idx = indices[split:], indices[:split]`. */
  function ShuffleSplit(perm: seq<nat>): (r: (seq<nat>, seq<nat>))
    ensures r.0 + r.1 == perm[ValidCount(|perm|)..] + perm[..ValidCount(|perm|)]
    ensures |r.1| == ValidCount(|perm|) && |r.0| + |r.1| == |perm|
  {
    var split := ValidCount(|perm|);
    (perm[split..], perm[..split])
  }

  /** The two index lists of a shuffled split are disjoint, together hold
      every index below `n`, and neither repeats an index. */
  lemma ShuffleSplitPartition(perm: seq<nat>, n: nat, x: nat)
    requires IsPermutation(perm, n)
    ensures |ShuffleSplit(perm).1| == n / 5 && |ShuffleSplit(perm).0| == n - n / 5
    ensures !(x in ShuffleSplit(perm).0 && x in ShuffleSplit(perm).1)
    ensures x < n <==> x in ShuffleSplit(perm).0 || x in ShuffleSplit(perm).1
    ensures multiset(ShuffleSplit(perm).0)[x] <= 1 && multiset(ShuffleSplit(perm).1)[x] <= 1
  {
    PermutationMembers(perm, n, x);
    var split := ValidCount(n);
    var train, valid := perm[split..], perm[..split];
    assert perm == valid + train;
    assert multiset(perm) == multiset(valid) + multiset(train);
  }

  /** `random_split` raises ValueError when the lengths do not add up. */
  datatype SplitError = LengthsMismatch

  /** The pieces of `random_split(dataset, lengths)` over the permutation
      `perm` it draws: consecutive slices of the given lengths. */
  function RandomSplit(perm: seq<nat>, lengths: seq<nat>): (r: Result<seq<seq<nat>>, SplitError>)
    ensures r.Failure? <==> SumNat(lengths) != |perm|
  {
    if SumNat(lengths) != |perm| then Failure(LengthsMismatch)
    else Success(Slices(perm, lengths))
  }

  /** The two pieces of a two-way `random_split` whose lengths add up. */
  function SplitTwo(perm: seq<nat>, lengths: seq<nat>): (r: (seq<nat>, seq<nat>))
    requires |lengths| == 2 && SumNat(lengths) == |perm|
    ensures RandomSplit(perm, lengths) == Success([r.0, r.1])
  {
    var pieces := RandomSplit(perm, lengths).value;
    assert pieces == [pieces[0], pieces[1]];
    (pieces[0], pieces[1])
  }

  /** `perm` cut into consecutive pieces of the given lengths. */
  function Slices(perm: seq<nat>, lengths: seq<nat>): (r: seq<seq<nat>>)
    requires SumNat(lengths) == |perm|
    ensures |r| == |lengths| && forall k :: 0 <= k < |r| ==> |r[k]| == lengths[k]
    decreases |lengths|
    ensures Concat(r) == perm
  {
    if |lengths| == 0 then []
    else
      var cut := SumNat(lengths[..|lengths| - 1]);
      var r := Slices(perm[..cut], lengths[..|lengths| - 1]) + [perm[cut..]];
      ConcatSnoc(Slices(perm[..cut], lengths[..|lengths| - 1]), perm[cut..]);
      r
  }

  lemma ConcatSnoc<T>(ss: seq<seq<T>>, s: seq<T>)
    ensures Concat(ss + [s]) == Concat(ss) + s
  {
    assert (ss + [s])[..|ss|] == ss;
  }

  /** The two subsets of a two-way `random_split` are disjoint and cover
      every index. */
  lemma RandomSplitPartition(perm: seq<nat>, n: nat, a: nat, b: nat, x: nat)
    requires IsPermutation(perm, n) && a + b == n
    ensures RandomSplit(perm, [a, b]).Success?
    ensures |RandomSplit(perm, [a, b]).value[0]| == a && |RandomSplit(perm, [a, b]).value[1]| == b
    ensures !(x in RandomSplit(perm, [a, b]).value[0] && x in RandomSplit(perm, [a, b]).value[1])
    ensures x < n <==> x in RandomSplit(perm, [a, b]).value[0] || x in RandomSplit(perm, [a, b]).value[1]
  {
    PermutationMembers(perm, n, x);
    SumPair(a, b);
    var pieces := RandomSplit(perm, [a, b]).value;
    assert Concat(pieces) == perm;
    assert Concat(pieces) == pieces[0] + pieces[1] by {
      var none: seq<seq<nat>> := [];
      assert pieces[..1][..0] == none;
      assert pieces[..1] == [pieces[0]];
      assert pieces == pieces[..1] + [pieces[1]];
    }
    assert multiset(perm) == multiset(pieces[0]) + multiset(pieces[1]);
  }

  lemma SumPair(a: nat, b: nat)
    ensures SumNat([a, b]) == a + b
  {
    var none: seq<nat> := [];
    assert [a][..0] == none;
    assert SumNat([a]) == a;
    assert [a, b][..1] == [a];
  }

  /** backend/enhanced_training.py: `val_size = int(0.2 * total)` and
      `train_size = total - val_size`, in the order [train, val]. */
  function EnhancedSizes(total: nat): (r: seq<nat>)
    ensures |r| == 2 && r[0] + r[1] == total && r[1] == total / 5
    ensures SumNat(r) == total
    ensures r[0] == 0 <==> total == 0
  {
    SumPair(total - total / 5, total / 5);
    [total - total / 5, total / 5]
  }

  /** backend/train.py: `train_size = int(0.8 * n)`, `val_size = n - train_size`. */
  function TrainSizes(n: nat): (r: seq<nat>)
    ensures |r| == 2 && r[0] + r[1] == n && 5 * r[0] <= 4 * n < 5 * r[0] + 5
    ensures SumNat(r) == n
    ensures r[0] == 0 <==> n <= 1
    ensures r[1] == 0 <==> n == 0
  {
    SumPair(4 * n / 5, n - 4 * n / 5);
    [4 * n / 5, n - 4 * n / 5]
  }

  /** With fewer than five samples the validation subset of
      backend/enhanced_training.py is empty, and with exactly one the
      training subset of backend/train.py is. */
  lemma SmallDatasetSplits(n: nat)
    ensures n < 5 ==> EnhancedSizes(n)[1] == 0
    ensures n == 1 ==> TrainSizes(n)[0] == 0
    ensures n >= 5 ==> EnhancedSizes(n)[1] > 0 && TrainSizes(n)[0] > 0
  {
  }

  /** A DataLoader raises ValueError for a batch size below one, and a
      shuffling one (through its random sampler) for an empty dataset. */
  datatype LoaderError = BadBatchSize | NoSamples

  /** `len(DataLoader(...))` without `drop_last`: the number of batches,
      the last of which may be short. */
  function LoaderLen(n: nat, batchSize: int): (r: Result<nat, LoaderError>)
    ensures r.Failure? <==> batchSize <= 0
    ensures r.Success? ==> (r.value - 1) * batchSize < n <= r.value * batchSize
    ensures r.Success? ==> (r.value > 0 <==> n > 0)
  {
    if batchSize <= 0 then Failure(BadBatchSize)
    else Success((n + batchSize - 1) / batchSize)
  }

  /** `len(DataLoader(..., shuffle=True))`: the random sampler is built
      before the batch sampler, so an empty dataset is refused first. A
      loader that is built has at least one batch. */
  function ShuffledLoaderLen(n: nat, batchSize: int): (r: Result<nat, LoaderError>)
    ensures r == Failure(NoSamples) <==> n == 0
    ensures r.Failure? <==> n == 0 || batchSize <= 0
    ensures r.Success? ==> r == LoaderLen(n, batchSize) && r.value > 0
  {
    if n == 0 then Failure(NoSamples) else LoaderLen(n, batchSize)
  }

  /** The batches a DataLoader cuts `samples` into, in order. */
  function Batches<T>(samples: seq<T>, batchSize: nat): (r: seq<seq<T>>)
    requires batchSize > 0
    ensures forall k :: 0 <= k < |r| ==> 0 < |r[k]| <= batchSize
    decreases |samples|
  {
    if |samples| == 0 then []
    else if |samples| <= batchSize then [samples]
    else [samples[..batchSize]] + Batches(samples[batchSize..], batchSize)
  }

  /** There are `len(loader)` batches and together they hold every sample once, in order. */
  lemma BatchesCover<T>(samples: seq<T>, batchSize: nat)
    requires batchSize > 0
    ensures LoaderLen(|samples|, batchSize) == Success(|Batches(samples, batchSize)|)
    ensures Concat(Batches(samples, batchSize)) == samples
  {
    BatchesCount(samples, batchSize);
    BatchesConcat(samples, batchSize);
  }

  lemma {:induction false} BatchesCount<T>(samples: seq<T>, batchSize: nat)
    requires batchSize > 0
    ensures |Batches(samples, batchSize)| == (|samples| + batchSize - 1) / batchSize
    decreases |samples|
  {
    if |samples| > batchSize {
      BatchesCount(samples[batchSize..], batchSize);
      var m := |samples| - batchSize;
      assert |Batches(samples, batchSize)| == 1 + (m + batchSize - 1) / batchSize;
      DivShift(m + batchSize - 1, batchSize);
    } else if |samples| > 0 {
      DivOne(|samples| + batchSize - 1, batchSize);
    }
  }

  lemma {:induction false} BatchesConcat<T>(samples: seq<T>, batchSize: nat)
    requires batchSize > 0
    ensures Concat(Batches(samples, batchSize)) == samples
    decreases |samples|
  {
    if |samples| > batchSize {
      BatchesConcat(samples[batchSize..], batchSize);
      var rest := Batches(samples[batchSize..], batchSize);
      assert Batches(samples, batchSize) == [samples[..batchSize]] + rest;
      ConcatCons(samples[..batchSize], rest);
      assert samples == samples[..batchSize] + samples[batchSize..];
    } else if |samples| > 0 {
      var none: seq<seq<T>> := [];
      assert [samples][..0] == none;
      assert Concat([samples]) == Concat(none) + samples;
    }
  }

  lemma MulAtLeast(k: int, b: int)
    requires k >= 1 && b > 0
    ensures k * b >= b
  {
  }
  lemma DivShift(a: nat, b: nat)
    requires b > 0
    ensures (a + b) / b == a / b + 1
  {
    var q, r := a / b, a % b;
    var q2, r2 := (a + b) / b, (a + b) % b;
    assert a == q * b + r && 0 <= r < b;
    assert a + b == q2 * b + r2 && 0 <= r2 < b;
    assert (q2 - q - 1) * b == r - r2 by {
      assert (q2 - q - 1) * b == q2 * b - q * b - b;
    }
    if q2 > q + 1 {
      MulAtLeast(q2 - q - 1, b);
    } else if q2 < q + 1 {
      MulAtLeast(q + 1 - q2, b);
    }
  }

  lemma DivOne(a: nat, b: nat)
    requires b <= a < 2 * b
    ensures a / b == 1
  {
  }

  function Concat<T>(ss: seq<seq<T>>): seq<T> {
    if |ss| == 0 then [] else Concat(ss[..|ss| - 1]) + ss[|ss| - 1]
  }

  lemma {:induction false} ConcatCons<T>(s: seq<T>, ss: seq<seq<T>>)
    ensures Concat([s] + ss) == s + Concat(ss)
  {
    if |ss| > 0 {
      var init := ss[..|ss| - 1];
      ConcatCons(s, init);
      assert ([s] + ss)[..|ss|] == [s] + init;
    }
  }

  /** backend/enhanced_training.py: the scheduler's warm-up is a fifth of
      all training steps, and never more than all of them. */
  function WarmupSteps(loaderLen: nat, epochs: nat): (r: (nat, nat))
    ensures r.0 == loaderLen * epochs && r.1 <= r.0 && 5 * r.1 <= r.0 < 5 * r.1 + 5
  {
    var steps := loaderLen * epochs;
    (steps, steps / 5)
  }
}
