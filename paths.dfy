/** Path strings as the analyzer sees them: Python's `str.split('/')` and
    `'/'.join`, the prefix pairs of `iterate_path_parts`, and POSIX
    `os.path.dirname` / `os.path.basename`. */
module Paths {

  /** `s.split('/')`: the '/'-separated segments of `s`, empty ones included.
      There is always at least one segment. */
  function Split(s: string): (r: seq<string>)
    ensures |r| >= 1
    decreases |s|
  {
    if s == "" then [""]
    else if s[0] == '/' then [""] + Split(s[1..])
    else
      var rest := Split(s[1..]);
      [[s[0]] + rest[0]] + rest[1..]
  }

  /** `'/'.join(xs)`. */
  function Join(xs: seq<string>): (r: string)
  {
    if |xs| == 0 then ""
    else if |xs| == 1 then xs[0]
    else xs[0] + "/" + Join(xs[1..])
  }

  /** Number of '/' characters in `s`. */
  function Slashes(s: string): (r: nat)
  {
    multiset(s)['/']
  }

  /** A normalised relative path: no segment is empty, so no leading or
      trailing '/', no "//", and not the empty string. */
  ghost predicate Normalised(p: string)
  {
    forall k :: 0 <= k < |Split(p)| ==> Split(p)[k] != ""
  }

  lemma {:induction false} SplitCount(s: string)
    ensures |Split(s)| == Slashes(s) + 1
    decreases |s|
  {
    if s != "" {
      assert s == [s[0]] + s[1..];
      assert multiset(s) == multiset{s[0]} + multiset(s[1..]);
      SplitCount(s[1..]);
    }
  }

  lemma {:induction false} SplitHasNoSlash(s: string)
    ensures forall k :: 0 <= k < |Split(s)| ==> '/' !in Split(s)[k]
    decreases |s|
  {
    if s != "" {
      SplitHasNoSlash(s[1..]);
      if s[0] != '/' {
        var rest := Split(s[1..]);
        assert '/' !in rest[0];
        assert '/' !in [s[0]] + rest[0];
      }
    }
  }

  lemma {:induction false} JoinSplit(s: string)
    ensures Join(Split(s)) == s
    decreases |s|
  {
    if s != "" {
      JoinSplit(s[1..]);
      var rest := Split(s[1..]);
      if s[0] == '/' {
        assert Split(s) == [""] + rest;
        assert ([""] + rest)[1..] == rest;
        assert Join(Split(s)) == "" + "/" + Join(rest);
      } else if |rest| == 1 {
        assert Join(Split(s)) == [s[0]] + rest[0];
      } else {
        var r := Split(s);
        assert r[1..] == rest[1..];
        assert Join(r) == [s[0]] + rest[0] + "/" + Join(rest[1..]);
        assert Join(rest) == rest[0] + "/" + Join(rest[1..]);
      }
    }
  }

  lemma {:induction false} JoinSnoc(xs: seq<string>, y: string)
    requires |xs| >= 1
    ensures Join(xs + [y]) == Join(xs) + "/" + y
    decreases |xs|
  {
    if |xs| > 1 {
      assert (xs + [y])[1..] == xs[1..] + [y];
      JoinSnoc(xs[1..], y);
    } else {
      assert (xs + [y])[1..] == [y];
    }
  }

  /** A string without '/' is a single segment. */
  lemma {:induction false} SplitNoSlash(a: string)
    requires '/' !in a
    ensures Split(a) == [a]
    decreases |a|
  {
    if a != "" {
      assert '/' !in a[1..] by { assert forall k :: 0 <= k < |a[1..]| ==> a[1..][k] == a[k + 1]; }
      SplitNoSlash(a[1..]);
      assert [a[0]] + a[1..] == a;
    }
  }

  /** The segment before the first '/' comes off the front. */
  lemma {:induction false} SplitCons(a: string, b: string)
    requires '/' !in a
    ensures Split(a + "/" + b) == [a] + Split(b)
    decreases |a|
  {
    if a == "" {
      assert ("" + "/" + b)[1..] == b;
    } else {
      assert '/' !in a[1..] by { assert forall k :: 0 <= k < |a[1..]| ==> a[1..][k] == a[k + 1]; }
      SplitCons(a[1..], b);
      assert (a + "/" + b)[1..] == a[1..] + "/" + b;
      assert [a[0]] + a[1..] == a;
    }
  }

  /** `iterate_path_parts(path)`: for every segment index i, the pair
      ('/'.join(segments[:i]), '/'.join(segments[:i+1])). */
  function PathParts(path: string): (r: seq<(string, string)>)
  {
    var segs := Split(path);
    seq(|segs|, i requires 0 <= i < |segs| => (Join(segs[..i]), Join(segs[..i + 1])))
  }

  /** A chain of (parent, part) pairs: the first parent is "" and each
      parent is the part of the pair before it. */
  ghost predicate Chained(parts: seq<(string, string)>)
  {
    && |parts| >= 1
    && parts[0].0 == ""
    && forall i :: 0 < i < |parts| ==> parts[i].0 == parts[i - 1].1
  }

  /** One pair per '/'-separated segment; the pairs form a chain that starts
      at "" and ends at the path itself. */
  lemma PathPartsShape(path: string)
    ensures |PathParts(path)| == |Split(path)| == Slashes(path) + 1
    ensures Chained(PathParts(path))
    ensures PathParts(path)[|PathParts(path)| - 1].1 == path
  {
    SplitCount(path);
    PathPartsChained(path);
    PathPartsLast(path);
  }

  lemma PathPartsChained(path: string)
    ensures Chained(PathParts(path))
  {
    var segs := Split(path);
    var parts := PathParts(path);
    assert parts[0].0 == Join(segs[..0]);
    assert segs[..0] == [];
    forall i | 0 < i < |parts|
      ensures parts[i].0 == parts[i - 1].1
    {
      assert parts[i].0 == Join(segs[..i]);
      assert parts[i - 1].1 == Join(segs[..(i - 1) + 1]);
    }
  }

  lemma PathPartsLast(path: string)
    ensures PathParts(path)[|PathParts(path)| - 1].1 == path
  {
    var segs := Split(path);
    JoinSplit(path);
    assert segs[..|segs|] == segs;
  }

  /** Index of the last '/' in `s`, or -1 (Python's `s.rfind('/')`). */
  function LastSlash(s: string): (i: int)
    ensures -1 <= i < |s|
    ensures i >= 0 ==> s[i] == '/'
  {
    if s == "" then -1
    else if s[|s| - 1] == '/' then |s| - 1
    else LastSlash(s[..|s| - 1])
  }

  /** No '/' follows the one `LastSlash` finds. */
  lemma {:induction false} LastSlashIsLast(s: string)
    ensures forall k :: LastSlash(s) < k < |s| ==> s[k] != '/'
    decreases |s|
  {
    if s != "" && s[|s| - 1] != '/' {
      LastSlashIsLast(s[..|s| - 1]);
    }
  }

  /** `s.rstrip('/')`: the longest prefix of `s` that does not end in '/'
      and beyond which `s` holds only '/'. */
  function RStrip(s: string): (r: string)
    ensures r <= s
    ensures r == "" || r[|r| - 1] != '/'
  {
    if s != "" && s[|s| - 1] == '/' then RStrip(s[..|s| - 1]) else s
  }

  /** Only slashes follow what `RStrip` keeps. */
  lemma {:induction false} RStripDropsSlashes(s: string)
    ensures forall k :: |RStrip(s)| <= k < |s| ==> s[k] == '/'
    decreases |s|
  {
    if s != "" && s[|s| - 1] == '/' {
      RStripDropsSlashes(s[..|s| - 1]);
    }
  }

  /** POSIX `os.path.dirname`: everything up to and including the last '/',
      with trailing slashes stripped unless it consists of slashes only. */
  function Dirname(p: string): (r: string)
  {
    var head := p[..LastSlash(p) + 1];
    if head != "" && exists k :: 0 <= k < |head| && head[k] != '/' then RStrip(head) else head
  }

  /** POSIX `os.path.basename`: everything after the last '/'. */
  function Basename(p: string): (r: string)
  {
    p[LastSlash(p) + 1..]
  }

  lemma BasenameHasNoSlash(p: string)
    ensures '/' !in Basename(p)
  {
    LastSlashIsLast(p);
  }

  /** A path is top-level (its dirname is "") exactly when it has no '/'. */
  lemma DirnameEmpty(p: string)
    ensures Dirname(p) == "" <==> '/' !in p
    ensures '/' !in p ==> Basename(p) == p
  {
    if '/' in p {
      var j :| 0 <= j < |p| && p[j] == '/';
      LastSlashIsLast(p);
      var i := LastSlash(p);
      assert j <= i;
      var head := p[..i + 1];
      if exists k :: 0 <= k < |head| && head[k] != '/' {
        var k :| 0 <= k < |head| && head[k] != '/';
        RStripDropsSlashes(head);
        assert RStrip(head) != "";
      }
    } else {
      assert LastSlash(p) == -1;
    }
  }

  /** Splitting `a + "/" + b` at its last slash gives back `a` and `b` when `b`
      holds no slash and `a` is nonempty and does not end in one. */
  lemma DirnameOfJoin(a: string, b: string)
    requires a != "" && a[|a| - 1] != '/'
    requires '/' !in b
    ensures Dirname(a + "/" + b) == a
    ensures Basename(a + "/" + b) == b
  {
    var p := a + "/" + b;
    LastSlashIsLast(p);
    var i := LastSlash(p);
    assert p[|a|] == '/';
    assert forall k :: |a| < k < |p| ==> p[k] == b[k - |a| - 1];
    assert i == |a|;
    var head := p[..i + 1];
    assert head == a + "/";
    assert head[|a| - 1] != '/';
    var r := RStrip(head);
    RStripDropsSlashes(head);
    assert |r| == |a|;
    assert p[i + 1..] == b;
  }

  lemma {:induction false} JoinLastChar(xs: seq<string>)
    requires |xs| >= 1
    requires forall k :: 0 <= k < |xs| ==> xs[k] != "" && '/' !in xs[k]
    ensures Join(xs) != "" && Join(xs)[|Join(xs)| - 1] != '/'
    decreases |xs|
  {
    if |xs| > 1 {
      JoinLastChar(xs[1..]);
      var t := Join(xs[1..]);
      assert Join(xs) == xs[0] + "/" + t;
      assert Join(xs)[|Join(xs)| - 1] == t[|t| - 1];
    } else {
      var x := xs[0];
      assert x[|x| - 1] in x;
    }
  }

  /** On a normalised path, every pair of `iterate_path_parts` is
      (dirname(part), part), and the basename of the i-th part is the i-th
      segment; in particular the last pair is (dirname(path), path). */
  lemma PathPartsAreDirnames(path: string)
    requires Normalised(path)
    ensures forall i :: 0 <= i < |PathParts(path)| ==>
      Dirname(PathParts(path)[i].1) == PathParts(path)[i].0 &&
      Basename(PathParts(path)[i].1) == Split(path)[i]
  {
    var segs := Split(path);
    var parts := PathParts(path);
    SplitHasNoSlash(path);
    forall i | 0 <= i < |parts|
      ensures Dirname(parts[i].1) == parts[i].0 && Basename(parts[i].1) == segs[i]
    {
      if i == 0 {
        assert segs[..1] == [segs[0]];
        DirnameEmpty(segs[0]);
      } else {
        assert segs[..i] + [segs[i]] == segs[..i + 1];
        JoinSnoc(segs[..i], segs[i]);
        JoinLastChar(segs[..i]);
        DirnameOfJoin(Join(segs[..i]), segs[i]);
      }
    }
  }
}
