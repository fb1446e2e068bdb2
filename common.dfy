/** Value types shared by every module: Python's optional values and raised
    exceptions as data, the `float('inf')` sentinel, and small folds over
    sequences. */
module Common {

  datatype Option<+T> = None | Some(value: T)

  /** A call that either returns `value` or raises the exception `error`. */
  datatype Result<+T, +E> = Success(value: T) | Failure(error: E)

  /** A loss bound that is either Python's `float('inf')` or a finite real. */
  datatype Bound = PosInf | Finite(value: real)

  /** `x < b` for a finite `x` and a possibly infinite `b`. */
  predicate Below(x: real, b: Bound) {
    b.PosInf? || x < b.value
  }

  /** Python's `s[idx]` on a sequence of length `n`: negative indexes count
      from the end, anything outside `[-n, n)` raises IndexError (None). */
  function PyIndex(idx: int, n: nat): (r: Option<nat>)
    ensures r.Some? <==> -(n as int) <= idx < n
    ensures r.Some? ==> r.value < n && (r.value == idx || r.value == idx + n)
  {
    if 0 <= idx < n then Some(idx)
    else if -(n as int) <= idx < 0 then Some(idx + n)
    else None
  }

  /** Number of occurrences of `x` in `s`. */
  function Count<T(==)>(s: seq<T>, x: T): (c: nat)
    ensures c <= |s|
  {
    if |s| == 0 then 0
    else Count(s[..|s| - 1], x) + (if s[|s| - 1] == x then 1 else 0)
  }

  /** An element is counted exactly when it occurs. */
  lemma {:induction false} CountPositive<T>(s: seq<T>, x: T)
    ensures Count(s, x) > 0 <==> x in s
  {
    if |s| > 0 {
      CountPositive(s[..|s| - 1], x);
      assert s == s[..|s| - 1] + [s[|s| - 1]];
    }
  }

  /** Python's `sum` over a list of floats, modelled over the reals. */
  function SumReal(s: seq<real>): real {
    if |s| == 0 then 0.0 else SumReal(s[..|s| - 1]) + s[|s| - 1]
  }

  function SumNat(s: seq<nat>): nat {
    if |s| == 0 then 0 else SumNat(s[..|s| - 1]) + s[|s| - 1]
  }

  function MaxReal(a: real, b: real): real {
    if a < b then b else a
  }

  /** `max(init, s[0], ..., s[|s|-1])`. */
  function MaxFrom(init: real, s: seq<real>): (m: real)
    ensures init <= m
    ensures forall i :: 0 <= i < |s| ==> s[i] <= m
    ensures m == init || exists i :: 0 <= i < |s| && m == s[i]
  {
    if |s| == 0 then init else MaxReal(MaxFrom(init, s[..|s| - 1]), s[|s| - 1])
  }

  /** `[0, 1, ..., n-1]`, Python's `list(range(n))`. */
  function Range(n: nat): (r: seq<nat>)
    ensures |r| == n
  {
    if n == 0 then [] else Range(n - 1) + [n - 1]
  }

  /** Position `i` of `range(n)` holds `i`. */
  lemma {:induction false} RangeIndex(n: nat, i: nat)
    requires i < n
    ensures Range(n)[i] == i
  {
    if i < n - 1 {
      RangeIndex(n - 1, i);
    }
  }

  lemma {:induction false} RangeMultiplicity(n: nat, x: nat)
    ensures multiset(Range(n))[x] == if x < n then 1 else 0
  {
    if n > 0 {
      RangeMultiplicity(n - 1, x);
      RangeSnoc(n, x);
    }
  }

  lemma RangeSnoc(n: nat, x: nat)
    requires n > 0
    ensures multiset(Range(n))[x] == multiset(Range(n - 1))[x] + if x == n - 1 then 1 else 0
  {
    var prev := Range(n - 1);
    assert Range(n) == prev + [n - 1];
    assert multiset(prev + [n - 1]) == multiset(prev) + multiset{n - 1};
  }

  /** A list comprehension `[f(x) for x in xs]` whose calls may raise: the
      results in order, or the exception of the first call that raises. */
  function TryMap<A, B, E>(xs: seq<A>, f: A -> Result<B, E>): (r: Result<seq<B>, E>)
    ensures r.Success? ==> |r.value| == |xs|
    ensures r.Success? ==> forall i :: 0 <= i < |xs| ==> f(xs[i]).Success? && f(xs[i]).value == r.value[i]
    ensures r.Failure? ==> exists i :: (0 <= i < |xs| && f(xs[i]).Failure? && f(xs[i]).error == r.error &&
      forall j :: 0 <= j < i ==> f(xs[j]).Success?)
  {
    if |xs| == 0 then Success([])
    else
      match f(xs[0])
      case Failure(e) => Failure(e)
      case Success(y) =>
        match TryMap(xs[1..], f)
        case Failure(e) =>
          ghost var i :| (0 <= i < |xs[1..]| && f(xs[1..][i]).Failure? && f(xs[1..][i]).error == e &&
            forall j :: 0 <= j < i ==> f(xs[1..][j]).Success?);
          assert f(xs[i + 1]).Failure? && f(xs[i + 1]).error == e;
          assert forall j :: 1 <= j < i + 1 ==> xs[j] == xs[1..][j - 1];
          Failure(e)
        case Success(ys) =>
          assert forall i :: 1 <= i < |xs| ==> xs[i] == xs[1..][i - 1];
          Success([y] + ys)
  }

  lemma AppendAssoc<T>(x: seq<T>, y: seq<T>, z: seq<T>)
    ensures x + y + z == x + (y + z)
  {
  }

  /** A comprehension over one element succeeds when its one call does. */
  lemma TryMapOne<A, B, E>(x: A, f: A -> Result<B, E>)
    requires f(x).Success?
    ensures TryMap([x], f) == Success([f(x).value])
  {
    var xs := [x];
    assert xs[0] == x && xs[1..] == [];
    assert TryMap(xs[1..], f) == Success([]);
    var y := f(x).value;
    assert TryMap(xs, f) == Success([y] + []);
    assert [y] + [] == [y];
  }

  /** A comprehension fails exactly when one of its calls raises. */
  lemma TryMapFails<A, B, E>(xs: seq<A>, f: A -> Result<B, E>)
    ensures TryMap(xs, f).Failure? <==> exists i :: 0 <= i < |xs| && f(xs[i]).Failure?
  {
    if TryMap(xs, f).Success? {
      forall i | 0 <= i < |xs| ensures f(xs[i]).Success? {
      }
    }
  }
}
