/** POSIX `os.path.join` (two arguments) and `os.path.basename`. */
module Paths {
  import opened Strings

  /** `os.path.join(a, b)`: an absolute `b` replaces `a`; otherwise a "/" is
      inserted unless `a` is empty or already ends with one. */
  function Join(a: string, b: string): string {
    if StartsWith(b, "/") then b
    else if a == [] || a[|a| - 1] == '/' then a + b
    else a + "/" + b
  }

  /** Joining the components of `names` onto `base`, one at a time. */
  function JoinAll(base: string, names: seq<string>): string {
    if names == [] then base else Join(JoinAll(base, names[..|names| - 1]), names[|names| - 1])
  }

  /** `os.path.basename(p)`: everything after the last "/". */
  function Basename(p: string): string {
    if p == [] || p[|p| - 1] == '/' then [] else Basename(p[..|p| - 1]) + [p[|p| - 1]]
  }

  /** The basename is the slash-free tail of the path that follows its last
      "/" (or is the whole path when it has none). */
  lemma {:induction false} BasenameIsLastComponent(p: string)
    ensures var r := Basename(p);
      EndsWith(p, r) && NoSlash(r) && (|r| < |p| ==> p[|p| - |r| - 1] == '/')
  {
    if p != [] && p[|p| - 1] != '/' {
      var q := p[..|p| - 1];
      BasenameIsLastComponent(q);
      var r := Basename(p);
      assert r == Basename(q) + [p[|p| - 1]];
      assert p[|p| - |r|..] == q[|q| - |Basename(q)|..] + [p[|p| - 1]];
      assert |r| < |p| ==> p[|p| - |r| - 1] == q[|q| - |Basename(q)| - 1];
    }
  }

  predicate NoSlash(s: string) {
    forall i :: 0 <= i < |s| ==> s[i] != '/'
  }

  /** The last component of a joined path is the name that was joined on. */
  lemma BasenameOfJoin(a: string, n: string)
    requires n != [] && NoSlash(n)
    ensures Basename(Join(a, n)) == n
  {
    var x := if a == [] || a[|a| - 1] == '/' then a else a + "/";
    assert n[..1][0] == n[0] != '/';
    assert Join(a, n) == x + n;
    assert x == [] || x[|x| - 1] == '/';
    BasenameOfSlashed(x, n);
  }

  lemma BasenameOfSlashed(x: string, n: string)
    requires x == [] || x[|x| - 1] == '/'
    requires n != [] && NoSlash(n)
    ensures Basename(x + n) == n
  {
    var p := x + n;
    var r := Basename(p);
    BasenameIsLastComponent(p);
    SlashFreeTail(p, n);
    SlashFreeTail(p, r);
    assert |r| >= |n|;
    if x != [] {
      assert p[|x| - 1] == '/';
    }
    assert |r| <= |n|;
    assert r == p[|x|..] == n;
  }

  /** No "/" in the last |t| characters of `p` when `p` ends with a slash-free `t`. */
  lemma SlashFreeTail(p: string, t: string)
    requires EndsWith(p, t) && NoSlash(t)
    ensures forall j :: |p| - |t| <= j < |p| ==> p[j] != '/'
  {
    forall j | |p| - |t| <= j < |p| ensures p[j] != '/' {
      assert p[j] == t[j - (|p| - |t|)];
    }
  }

  /** Joining a proper name never gives the empty path. */
  lemma JoinNonEmpty(a: string, n: string)
    requires n != []
    ensures Join(a, n) != []
  {
  }
}
