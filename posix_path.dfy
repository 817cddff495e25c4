/** The two `os.path` operations the packaging code uses, as POSIX defines
    them for "/"-separated paths. */
module PosixPath {
  import opened Text

  /** `os.path.split(p)[1]`: the text after the last "/" (all of `p` when it
      holds none). */
  function Basename(p: string): string
  {
    if p == [] then []
    else if p[|p| - 1] == '/' then []
    else Basename(p[..|p| - 1]) + [p[|p| - 1]]
  }

  /** The base name is the longest "/"-free suffix of the path. */
  lemma {:induction false} BasenameIsLastComponent(p: string)
    ensures '/' !in Basename(p)
    ensures |Basename(p)| <= |p| && p[|p| - |Basename(p)|..] == Basename(p)
    ensures |Basename(p)| < |p| ==> p[|p| - |Basename(p)| - 1] == '/'
  {
    if p != [] && p[|p| - 1] != '/' {
      var init := p[..|p| - 1];
      BasenameIsLastComponent(init);
      assert p[|p| - |Basename(p)|..] == init[|init| - |Basename(init)|..] + [p[|p| - 1]];
    }
  }

  /** `os.path.join(a, b)`: an absolute `b` replaces `a`; otherwise a "/" is
      put between them unless `a` is empty or already ends in one. */
  function Join(a: string, b: string): string
  {
    if StartsWith(b, "/") then b
    else if a == [] || EndsWith(a, "/") then a + b
    else a + "/" + b
  }

  /** A join ends with its second part and, unless that part is absolute,
      starts with its first. */
  lemma JoinShape(a: string, b: string)
    ensures EndsWith(Join(a, b), b)
    ensures !StartsWith(b, "/") ==> StartsWith(Join(a, b), a)
  {
    var r := Join(a, b);
    if !StartsWith(b, "/") {
      assert r[..|a|] == a;
    }
  }

  /** The last component of a path that has `b` after a "/" (or nothing) is `b`. */
  lemma BasenameAfterSeparator(x: string, b: string)
    requires '/' !in b
    requires x == [] || x[|x| - 1] == '/'
    ensures Basename(x + b) == b
  {
    var p := x + b;
    BasenameIsLastComponent(p);
    assert Basename(p) == p[|p| - |b|..] == b;
  }

  /** Joining a "/"-free name onto a directory yields a path inside that
      directory whose last component is the name. */
  lemma BasenameOfJoin(a: string, b: string)
    requires '/' !in b
    ensures StartsWith(Join(a, b), a)
    ensures Basename(Join(a, b)) == b
  {
    assert !StartsWith(b, "/") by {
      if |b| > 0 { assert b[0] in b; }
    }
    JoinShape(a, b);
    if a == [] || EndsWith(a, "/") {
      if a != [] { assert a[|a| - 1] == a[|a| - 1..][0]; }
      BasenameAfterSeparator(a, b);
    } else {
      assert a + "/" + b == (a + "/") + b;
      BasenameAfterSeparator(a + "/", b);
    }
  }

}
