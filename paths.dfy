/** POSIX path helpers as Python's `os.path` defines them: `splitext` and `basename`. */
module Paths {
  import opened Text

  /** `s.rfind(c)`: the last index holding c, or -1. */
  function RFind(s: string, c: char): (i: int)
    ensures -1 <= i < |s|
    ensures i >= 0 ==> s[i] == c
    ensures forall j :: i < j < |s| ==> s[j] != c
  {
    if s == [] then -1
    else if s[|s| - 1] == c then |s| - 1
    else RFind(s[..|s| - 1], c)
  }

  /** The position where `splitext` cuts p, or |p| when p has no extension: the last '.'
      after the last '/', provided some character between that '/' and the dot is not
      itself a dot (a leading-dot name such as ".bashrc" has no extension). */
  function ExtStart(p: string): (k: nat)
    ensures k <= |p|
  {
    var sep := RFind(p, '/');
    var dot := RFind(p, '.');
    if dot > sep && exists j :: sep < j < dot && p[j] != '.' then dot else |p|
  }

  /** `os.path.splitext(p)[0]`. */
  function Root(p: string): string {
    p[..ExtStart(p)]
  }

  /** `os.path.splitext(p)[1]`. */
  function Ext(p: string): string {
    p[ExtStart(p)..]
  }

  /** `os.path.basename(p)`: everything after the last '/'. */
  function Basename(p: string): (b: string)
    ensures '/' !in b
    ensures |b| <= |p| && b == p[|p| - |b|..]
    ensures |b| == |p| || p[|p| - |b| - 1] == '/'
  {
    p[RFind(p, '/') + 1..]
  }

  predicate NoSeparators(s: string) {
    '.' !in s && '/' !in s
  }

  /** The shape of every extension `splitext` returns: empty, or a dot followed by
      characters that are neither dots nor slashes. */
  predicate IsExtension(e: string) {
    e == [] || (e[0] == '.' && NoSeparators(e[1..]))
  }

  /** splitext cuts p into two parts that concatenate back to p, the second of which
      has the shape of an extension. */
  lemma {:induction false} SplitExtParts(p: string)
    ensures Root(p) + Ext(p) == p
    ensures IsExtension(Ext(p))
  {
    assert p[..ExtStart(p)] + p[ExtStart(p)..] == p;
    var k := ExtStart(p);
    if k < |p| {
      var e := p[k..];
      forall i | 0 <= i < |e[1..]|
        ensures e[1..][i] != '.' && e[1..][i] != '/'
      {
        assert e[1..][i] == p[k + 1 + i];
      }
    }
  }

  /** The extension of a name `dir + stem + e`, where dir holds no dot and ends in a
      slash (or is empty), stem is a non-empty name without dots or slashes and e has
      the shape of an extension, is e. This is how a file saved under a fresh unique
      name keeps the extension of the name it came with. */
  lemma {:induction false} ExtOfStemWithExt(dir: string, stem: string, e: string)
    requires '.' !in dir && (dir == [] || dir[|dir| - 1] == '/')
    requires stem != [] && NoSeparators(stem)
    requires IsExtension(e)
    ensures Ext(dir + stem + e) == e
  {
    var p := dir + stem + e;
    var n := |dir| + |stem|;
    assert p[..|dir|] == dir && p[|dir|..n] == stem && p[n..] == e;
    var sep := RFind(p, '/');
    var dot := RFind(p, '.');
    forall j | |dir| <= j < |p| && j != n
      ensures p[j] != '/' && p[j] != '.'
    {
      if j < n {
        assert p[j] == stem[j - |dir|];
      } else {
        assert p[j] == e[1..][j - n - 1];
      }
    }
    assert e != [] ==> p[n] == '.';
    if dir == [] {
      assert sep == -1;
    } else {
      assert p[|dir| - 1] == '/';
      assert sep == |dir| - 1;
    }
    if e == [] {
      forall j | 0 <= j < |p|
        ensures p[j] != '.'
      {
        if j < |dir| {
          assert p[j] == dir[j];
        }
      }
      assert dot == -1;
      assert ExtStart(p) == |p|;
    } else {
      assert dot == n;
      assert p[|dir|] == stem[0] && stem[0] != '.';
      assert ExtStart(p) == n;
    }
  }

  /** Lower-casing a path keeps every '.' and '/' in place, so it commutes with
      splitext. */
  lemma {:induction false} ExtOfLower(p: string)
    ensures Ext(Lower(p)) == Lower(Ext(p))
  {
    var q := Lower(p);
    forall c | c == '.' || c == '/'
      ensures RFind(q, c) == RFind(p, c)
      ensures forall j :: 0 <= j < |p| ==> (q[j] == c <==> p[j] == c)
    {
      forall j | 0 <= j < |p|
        ensures q[j] == c <==> p[j] == c
      {
        LowerKeepsSeparators(p[j]);
      }
      var rq, rp := RFind(q, c), RFind(p, c);
      assert rq >= 0 ==> p[rq] == c;
      assert rp >= 0 ==> q[rp] == c;
    }
    assert ExtStart(q) == ExtStart(p) by {
      var sep := RFind(p, '/');
      var dot := RFind(p, '.');
      assert (exists j :: sep < j < dot && q[j] != '.') <==> (exists j :: sep < j < dot && p[j] != '.');
    }
    assert q[ExtStart(p)..] == Lower(p[ExtStart(p)..]);
  }

  /** `s.lower().endswith(suffix)`. */
  predicate LowerEndsWith(s: string, suffix: string) {
    EndsWith(Lower(s), suffix)
  }
}
