/** The order Python's `sorted` puts `pathlib` paths in, and a stable sort
    by that order. `PurePosixPath` compares the lists of path parts; for
    normalised paths that is the character-by-character order of the path
    text in which the separator ranks below every other character. */
module PathOrder {

  /** Rank of a character for part-wise comparison: '/' first, then code points. */
  function Rank(c: char): nat {
    if c == '/' then 0 else c as nat + 1
  }

  /** `a <= b` for paths. */
  predicate PathLeq(a: string, b: string)
    decreases |a|
  {
    |a| == 0 ||
    (|b| > 0 &&
      (Rank(a[0]) < Rank(b[0]) ||
       (Rank(a[0]) == Rank(b[0]) && PathLeq(a[1..], b[1..]))))
  }

  lemma {:induction false} PathLeqTotal(a: string, b: string)
    ensures PathLeq(a, b) || PathLeq(b, a)
    decreases |a|
  {
    if |a| > 0 && |b| > 0 && Rank(a[0]) == Rank(b[0]) {
      PathLeqTotal(a[1..], b[1..]);
    }
  }

  lemma {:induction false} PathLeqTransitive(a: string, b: string, c: string)
    requires PathLeq(a, b) && PathLeq(b, c)
    ensures PathLeq(a, c)
    decreases |a|
  {
    if |a| > 0 && Rank(a[0]) == Rank(b[0]) && Rank(b[0]) == Rank(c[0]) {
      PathLeqTransitive(a[1..], b[1..], c[1..]);
    }
  }

  predicate SortedBy<T>(s: seq<T>, key: T -> string) {
    forall i, j :: 0 <= i < j < |s| ==> PathLeq(key(s[i]), key(s[j]))
  }

  /** Inserts `x` after every element whose key is not greater than its own. */
  function InsertBy<T>(x: T, s: seq<T>, key: T -> string): (r: seq<T>)
    requires SortedBy(s, key)
    ensures SortedBy(r, key)
    ensures multiset(r) == multiset(s) + multiset{x}
  {
    if |s| == 0 then [x]
    else if !PathLeq(key(s[0]), key(x)) then
      PathLeqTotal(key(s[0]), key(x));
      InsertBeforeHead(x, s, key);
      [x] + s
    else
      var rest := InsertBy(x, s[1..], key);
      InsertAfterHead(x, s, rest, key);
      [s[0]] + rest
  }

  lemma InsertBeforeHead<T>(x: T, s: seq<T>, key: T -> string)
    requires |s| > 0 && SortedBy(s, key) && PathLeq(key(x), key(s[0]))
    ensures SortedBy([x] + s, key)
    ensures multiset([x] + s) == multiset(s) + multiset{x}
  {
    var r := [x] + s;
    forall i, j | 0 <= i < j < |r| ensures PathLeq(key(r[i]), key(r[j])) {
      if i == 0 && j > 1 {
        PathLeqTransitive(key(x), key(s[0]), key(s[j - 1]));
      }
    }
  }

  lemma InsertAfterHead<T>(x: T, s: seq<T>, rest: seq<T>, key: T -> string)
    requires |s| > 0 && SortedBy(s, key) && PathLeq(key(s[0]), key(x))
    requires SortedBy(rest, key) && multiset(rest) == multiset(s[1..]) + multiset{x}
    ensures SortedBy([s[0]] + rest, key)
    ensures multiset([s[0]] + rest) == multiset(s) + multiset{x}
  {
    var r := [s[0]] + rest;
    forall i, j | 0 <= i < j < |r| ensures PathLeq(key(r[i]), key(r[j])) {
      if i == 0 {
        var y := rest[j - 1];
        assert y in multiset(rest);
        if y != x {
          assert y in multiset(s[1..]);
          var k :| 0 <= k < |s[1..]| && s[1..][k] == y;
          assert s[k + 1] == y;
        }
      }
    }
    assert s == [s[0]] + s[1..];
  }

  /** `sorted(s, key=key)`. */
  function SortBy<T>(s: seq<T>, key: T -> string): (r: seq<T>)
    ensures SortedBy(r, key)
    ensures multiset(r) == multiset(s)
  {
    if |s| == 0 then []
    else
      assert s == s[..|s| - 1] + [s[|s| - 1]];
      InsertBy(s[|s| - 1], SortBy(s[..|s| - 1], key), key)
  }
}
