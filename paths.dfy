/** The string rules of Python's path helpers that the data loaders rely on:
    `PurePath.name`, `PurePath.stem`, `os.path.splitext` and
    `os.path.join`, for POSIX paths (separator '/'). */
module Paths {
  import opened Common

  const Sep: char := '/'

  predicate EndsWith(s: string, suffix: string) {
    |suffix| <= |s| && s[|s| - |suffix|..] == suffix
  }

  /** `s.rfind(c)`: the last position of `c` in `s`; None stands for -1. */
  function LastIndexOf(s: string, c: char): (r: Option<nat>)
    ensures r.Some? ==> r.value < |s| && s[r.value] == c
    ensures r.Some? ==> forall k :: r.value < k < |s| ==> s[k] != c
    ensures r.None? ==> forall k :: 0 <= k < |s| ==> s[k] != c
  {
    if |s| == 0 then None
    else if s[|s| - 1] == c then Some(|s| - 1)
    else LastIndexOf(s[..|s| - 1], c)
  }

  /** The last `c` of `x + [c] + y` is the one after `x` when `y` holds none. */
  lemma {:induction false} LastIndexOfSplit(x: string, c: char, y: string)
    requires c !in y
    ensures LastIndexOf(x + [c] + y, c) == Some(|x|)
    decreases |y|
  {
    var s := x + [c] + y;
    if |y| == 0 {
      assert s == x + [c];
    } else {
      var n := |y| - 1;
      assert s[|s| - 1] == y[n];
      assert s[..|s| - 1] == x + [c] + y[..n];
      assert c !in y[..n] by {
        assert forall k :: 0 <= k < n ==> y[..n][k] == y[k];
      }
      LastIndexOfSplit(x, c, y[..n]);
    }
  }

  /** `PurePath.name`: the text after the last separator. */
  function BaseName(p: string): (name: string)
    ensures Sep !in name && EndsWith(p, name)
    ensures |name| == |p| || p[|p| - |name| - 1] == Sep
  {
    match LastIndexOf(p, Sep)
    case None => p
    case Some(i) => p[i + 1..]
  }

  /** `PurePath.stem` of a name: the name without its final suffix, where a
      suffix starts at the last dot provided that dot is neither the first
      nor the last character of the name. */
  function Stem(name: string): string {
    match LastIndexOf(name, '.')
    case None => name
    case Some(i) => if 0 < i < |name| - 1 then name[..i] else name
  }

  /** True when `p[lo..hi]` holds a character other than a dot. */
  predicate HasNonDot(p: string, lo: nat, hi: nat)
    requires lo <= hi <= |p|
  {
    exists k :: lo <= k < hi && p[k] != '.'
  }

  /** `os.path.splitext(p)[0]`: the extension starts at the last dot of the
      last path component, unless everything before that dot in the
      component is dots (so ".bashrc" has no extension). */
  function SplitExtRoot(p: string): string {
    var start := match LastIndexOf(p, Sep) case None => 0 case Some(s) => s + 1;
    match LastIndexOf(p, '.')
    case None => p
    case Some(d) => if start <= d && HasNonDot(p, start, d) then p[..d] else p
  }

  /** `os.path.join(a, b)`: an absolute `b` replaces `a`; otherwise a
      separator is inserted unless `a` is empty or already ends in one. */
  function Join(a: string, b: string): string {
    if |b| > 0 && b[0] == Sep then b
    else if |a| == 0 || a[|a| - 1] == Sep then a + b
    else a + [Sep] + b
  }

  /** Joining a plain file name onto a directory gives a path whose
      `PurePath.name` is that file name. */
  lemma BaseNameOfJoin(dir: string, file: string)
    requires |file| > 0 && Sep !in file
    ensures BaseName(Join(dir, file)) == file
  {
    if |dir| == 0 {
      assert Join(dir, file) == file;
    } else if dir[|dir| - 1] == Sep {
      var pre := dir[..|dir| - 1];
      assert Join(dir, file) == pre + [Sep] + file;
      LastIndexOfSplit(pre, Sep, file);
    } else {
      LastIndexOfSplit(dir, Sep, file);
    }
  }

  /** The stem of `x.ext` is `x` when `ext` is non-empty and dot-free. */
  lemma StemDropsExtension(x: string, ext: string)
    requires |x| > 0 && |ext| > 0 && '.' !in ext
    ensures Stem(x + "." + ext) == x
  {
    LastIndexOfSplit(x, '.', ext);
    assert (x + "." + ext)[..|x|] == x;
  }

  /** `os.path.splitext` strips a dot-free, separator-free extension from a
      name that does not start with a dot. */
  lemma SplitExtDropsExtension(x: string, ext: string)
    requires |x| > 0 && x[0] != '.' && Sep !in x
    requires '.' !in ext && Sep !in ext
    ensures SplitExtRoot(x + "." + ext) == x
  {
    var p := x + "." + ext;
    LastIndexOfSplit(x, '.', ext);
    assert forall k :: 0 <= k < |p| ==> p[k] != Sep by {
      forall k | 0 <= k < |p| ensures p[k] != Sep {
        if k < |x| { assert p[k] == x[k]; }
        else if k > |x| { assert p[k] == ext[k - |x| - 1]; }
      }
    }
    assert LastIndexOf(p, Sep).None?;
    assert p[0] == x[0];
    assert HasNonDot(p, 0, |x|);
    assert p[..|x|] == x;
  }
}
