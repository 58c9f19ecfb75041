/** The parts of Python's posixpath that the page loader relies on:
    join, split and splitext on '/'-separated path strings. */
module Paths {

  /** Index of the last occurrence of c in s, or -1 (str.rfind). */
  function RFind(s: string, c: char): (r: int)
    ensures -1 <= r < |s|
  {
    if |s| == 0 then -1
    else if s[|s| - 1] == c then |s| - 1
    else RFind(s[..|s| - 1], c)
  }

  /** RFind finds c, and no c comes after it. */
  lemma {:induction false} RFindLast(s: string, c: char)
    ensures var r := RFind(s, c);
      (r >= 0 ==> s[r] == c) && forall j :: r < j < |s| ==> s[j] != c
  {
    if |s| > 0 && s[|s| - 1] != c {
      RFindLast(s[..|s| - 1], c);
    }
  }

  predicate AllChar(s: string, c: char)
  {
    forall k :: 0 <= k < |s| ==> s[k] == c
  }

  predicate StartsWithSlash(s: string)
  {
    |s| > 0 && s[0] == '/'
  }

  predicate EndsWithSlash(s: string)
  {
    |s| > 0 && s[|s| - 1] == '/'
  }

  /** What join puts in front of a relative second component. */
  function JoinPrefix(a: string): string
  {
    if a == "" || EndsWithSlash(a) then a else a + "/"
  }

  /** os.path.join(a, b): an absolute b replaces a; otherwise b is appended,
      with a separator unless a is empty or already ends in one. */
  function Join(a: string, b: string): string
  {
    if StartsWithSlash(b) then b
    else if a == "" || EndsWithSlash(a) then a + b
    else a + "/" + b
  }

  /** str.rstrip('/'). */
  function RStripSlashes(s: string): (r: string)
    ensures |r| <= |s| && r == s[..|r|]
    ensures !EndsWithSlash(r)
    ensures AllChar(s[|r|..], '/')
  {
    if EndsWithSlash(s) then
      var r := RStripSlashes(s[..|s| - 1]);
      assert s[|r|..] == s[..|s| - 1][|r|..] + "/";
      r
    else s
  }

  /** os.path.split(p): the head is everything up to the last '/', with its
      trailing slashes removed unless it consists of slashes only. */
  function Split(p: string): (string, string)
  {
    var i := RFind(p, '/') + 1;
    var head := p[..i];
    var tail := p[i..];
    if head != "" && !AllChar(head, '/') then (RStripSlashes(head), tail)
    else (head, tail)
  }

  /** The final segment of p has a non-dot character at i and a dot at d
      after it (no '/' from i on). */
  ghost predicate ExtensionAt(p: string, i: int, d: int)
  {
    0 <= i < d < |p| && p[i] != '.' && p[d] == '.' && '/' !in p[i..]
  }

  /** p has an extension in the sense of splitext. */
  ghost predicate HasExtension(p: string)
  {
    exists i, d :: ExtensionAt(p, i, d)
  }

  /** The test that splitext performs after its two rfind calls. */
  predicate SplitsAt(p: string, sep: int, dot: int)
    requires -1 <= sep < |p| && -1 <= dot < |p|
  {
    dot > sep && !AllChar(p[sep + 1..dot], '.')
  }

  /** A dot followed by neither dots nor slashes: what splitext cuts off. */
  predicate DotSuffix(e: string)
  {
    |e| > 0 && e[0] == '.' && '.' !in e[1..] && '/' !in e
  }

  /** os.path.splitext(p) of posixpath: split at the last '.' when it lies
      after the last '/' and the final segment has a non-dot character
      before it (so leading dots, as in ".bashrc", do not count). */
  function Splitext(p: string): (string, string)
  {
    var sep := RFind(p, '/');
    var dot := RFind(p, '.');
    if SplitsAt(p, sep, dot) then (p[..dot], p[dot..]) else (p, "")
  }

  /** The two parts of splitext put back together give the path; the
      extension is empty, or a dot followed by neither dots nor slashes,
      and it is non-empty exactly when the path has an extension. */
  lemma SplitextRule(p: string)
    ensures var (root, ext) := Splitext(p);
      root + ext == p &&
      (ext != "" ==> DotSuffix(ext)) &&
      (ext != "" <==> HasExtension(p))
  {
    var sep := RFind(p, '/');
    var dot := RFind(p, '.');
    if SplitsAt(p, sep, dot) {
      RFindLast(p, '/');
      RFindLast(p, '.');
      ExtensionTestSound(p, sep, dot);
      assert p[..dot] + p[dot..] == p;
      assert Splitext(p) == (p[..dot], p[dot..]);
    } else {
      ExtensionTestComplete(p, sep, dot);
      assert Splitext(p) == (p, "");
    }
  }

  /** When the test succeeds, p has an extension starting at the last dot. */
  lemma ExtensionTestSound(p: string, sep: int, dot: int)
    requires -1 <= sep < |p| && -1 <= dot < |p| && SplitsAt(p, sep, dot)
    requires p[dot] == '.'
    requires forall j :: sep < j < |p| ==> p[j] != '/'
    requires forall j :: dot < j < |p| ==> p[j] != '.'
    ensures HasExtension(p)
    ensures DotSuffix(p[dot..])
  {
    LastDotSuffix(p, sep, dot);
    var seg := p[sep + 1..dot];
    var k :| 0 <= k < |seg| && seg[k] != '.';
    assert seg[k] == p[sep + 1 + k];
    SegmentWitness(p, sep, dot, sep + 1 + k);
  }

  /** From the last dot on, a suffix without further dots or slashes. */
  lemma LastDotSuffix(p: string, sep: int, dot: int)
    requires -1 <= sep < dot < |p| && p[dot] == '.'
    requires forall j :: sep < j < |p| ==> p[j] != '/'
    requires forall j :: dot < j < |p| ==> p[j] != '.'
    ensures DotSuffix(p[dot..])
  {
    assert forall j :: 0 <= j < |p[dot..]| ==> p[dot..][j] == p[dot + j];
    assert p[dot..][1..] == p[dot + 1..];
  }

  /** A non-dot character at i, after the last slash and before the dot d. */
  lemma SegmentWitness(p: string, sep: int, d: int, i: int)
    requires -1 <= sep < i < d < |p| && p[d] == '.' && p[i] != '.'
    requires forall j :: sep < j < |p| ==> p[j] != '/'
    ensures HasExtension(p)
  {
    assert forall j :: 0 <= j < |p[i..]| ==> p[i..][j] == p[i + j];
    assert ExtensionAt(p, i, d);
  }

  /** Every extension witness makes the test succeed. */
  lemma ExtensionTestComplete(p: string, sep: int, dot: int)
    requires sep == RFind(p, '/') && dot == RFind(p, '.')
    ensures HasExtension(p) ==> SplitsAt(p, sep, dot)
  {
    RFindLast(p, '/');
    RFindLast(p, '.');
    if HasExtension(p) {
      var i, d :| ExtensionAt(p, i, d);
      assert d <= dot;
      assert sep < i by {
        forall j | i <= j < |p| ensures p[j] != '/' {
          assert p[i..][j - i] == p[j];
        }
      }
      assert !AllChar(p[sep + 1..dot], '.') by {
        assert p[sep + 1..dot][i - sep - 1] == p[i];
      }
    }
  }

  /** Splitting a join of a directory and a slash-free name gives both back:
      the directory that write_file checks is the one the name was joined to. */
  lemma SplitJoin(d: string, f: string)
    requires d != "" && !EndsWithSlash(d)
    requires '/' !in f
    ensures Split(Join(d, f)) == (d, f)
  {
    var p := Join(d, f);
    assert p == d + "/" + f;
    assert p[|d|] == '/';
    var i := RFind(p, '/');
    RFindLast(p, '/');
    assert forall j :: |d| < j < |p| ==> p[j] == f[j - |d| - 1];
    assert i == |d|;
    assert p[..i + 1] == d + "/";
    assert p[i + 1..] == f;
    assert !AllChar(d + "/", '/') by { assert (d + "/")[|d| - 1] == d[|d| - 1]; }
    var r := RStripSlashes(d + "/");
    assert (d + "/")[..|d|] == d;
    assert r == RStripSlashes(d);
  }

  /** Joining twice equals joining once with a joined relative name, when
      neither inner component starts with '/' and the middle one is a
      plain non-empty name: a path stored as d/f relative to a, and the
      file written at join(join(a, d), f), are the same place. */
  lemma JoinNested(a: string, d: string, f: string)
    requires d != "" && !StartsWithSlash(d) && !EndsWithSlash(d)
    requires !StartsWithSlash(f)
    ensures Join(Join(a, d), f) == Join(a, Join(d, f))
  {
    var pre := JoinPrefix(a);
    var df := d + "/" + f;
    assert (pre + d)[|pre + d| - 1] == d[|d| - 1];
    assert df[0] == d[0];
    calc {
      Join(Join(a, d), f);
      Join(pre + d, f);
      (pre + d) + "/" + f;
      pre + df;
      Join(a, Join(d, f));
    }
  }
}
