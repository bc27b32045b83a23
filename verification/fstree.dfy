/** The directory tree that dump_project.py walks, the order in which the tree
    renderers list a directory (`sorted(..., key=lambda e: e.name.lower())`),
    the entries they keep, and the pre-order outline of the kept tree that the
    three tree forms are checked against. */
module FsTree {
  import opened Seqs
  import opened Strings
  import opened Lines
  import opened Paths
  import opened Filters

  /** What reading a file gives: its (already decoded) text, or the failure
      that `open`/`read` raised. */
  datatype ReadOutcome = Content(text: string) | ReadError(reason: string)

  /** A directory entry. `readable` is false when listing the directory
      raises; `Special` is an entry that is neither a directory nor a regular
      file (a socket, a device, a dangling link). */
  datatype Node =
    | Dir(name: string, children: seq<Node>, readable: bool)
    | File(name: string, read: ReadOutcome)
    | Special(name: string, read: ReadOutcome)

  function SortKey(n: Node): string {
    Lower(n.name)
  }

  /** The entries the tree renderers keep: a directory whose name is not
      ignored, or a regular file whose name is not ignored. */
  predicate Kept(n: Node) {
    (n.Dir? && !ShouldIgnoreDir(n.name)) || (n.File? && !ShouldIgnoreFile(n.name))
  }

  predicate SortedByKey(s: seq<Node>) {
    forall i, j :: 0 <= i < j < |s| ==> !Less(SortKey(s[j]), SortKey(s[i]))
  }

  /** No element of `s` sorts before `a`. */
  predicate LowerBound(a: Node, s: seq<Node>) {
    forall y | y in s :: !Less(SortKey(y), SortKey(a))
  }

  /** Inserts `x` in front of the first element whose key is not smaller, so
      that `x` stays ahead of the equal keys that follow it. */
  function Insert(x: Node, s: seq<Node>): seq<Node> {
    if s == [] || !Less(SortKey(s[0]), SortKey(x)) then [x] + s
    else [s[0]] + Insert(x, s[1..])
  }

  /** `sorted(entries, key=lambda e: e.name.lower())`: a stable sort. */
  function SortByName(s: seq<Node>): seq<Node> {
    if s == [] then [] else Insert(s[0], SortByName(s[1..]))
  }

  lemma {:induction false} InsertPermutes(x: Node, s: seq<Node>)
    ensures multiset(Insert(x, s)) == multiset(s) + multiset{x}
  {
    if s != [] && Less(SortKey(s[0]), SortKey(x)) {
      InsertPermutes(x, s[1..]);
      assert s == [s[0]] + s[1..];
    }
  }

  /** Sorting neither loses nor adds entries. */
  lemma {:induction false} SortPermutes(s: seq<Node>)
    ensures multiset(SortByName(s)) == multiset(s)
  {
    if s != [] {
      SortPermutes(s[1..]);
      InsertPermutes(s[0], SortByName(s[1..]));
      assert s == [s[0]] + s[1..];
    }
  }

  /** The entries of `s` with sort key `k`, in order. */
  function WithKey(s: seq<Node>, k: string): seq<Node> {
    if s == [] then []
    else (if SortKey(s[0]) == k then [s[0]] else []) + WithKey(s[1..], k)
  }

  /** The entries a tree renderer lists for one directory, in order. */
  function Retained(children: seq<Node>): (r: seq<Node>)
    ensures forall e | e in r :: e in children
  {
    var sorted := SortByName(children);
    SortedFrom(children);
    Filter(Kept, sorted)
  }

  /** Every entry of the sorted listing is an entry of the listing. */
  lemma SortedFrom(children: seq<Node>)
    ensures forall e | e in SortByName(children) :: e in children
  {
    SortPermutes(children);
    assert forall e | e in SortByName(children) :: e in multiset(children);
  }

  /** The `k`-th listed entry is one of the directory's entries. */
  lemma RetainedEntry(children: seq<Node>, k: nat)
    requires k < |Retained(children)|
    ensures Retained(children)[k] in children
  {
  }

  /** The `i`-th entry of the sorted listing is one of the directory's
      entries. */
  lemma SortedEntry(children: seq<Node>, i: nat)
    requires i < |SortByName(children)|
    ensures SortByName(children)[i] in children
  {
    SortedFrom(children);
  }

  /** The selection loop `build_tree` and `build_markdown_tree` share: walk
      the sorted listing and keep the directories and regular files whose
      names are not ignored. */
  method ScanEntries(children: seq<Node>) returns (entries: seq<Node>)
    ensures entries == Retained(children)
  {
    var sorted := SortByName(children);
    entries := [];
    var i := 0;
    while i < |sorted|
      invariant 0 <= i <= |sorted|
      invariant entries + Filter(Kept, sorted[i..]) == Retained(children)
    {
      var entry := sorted[i];
      FilterStep(sorted, i, entries);
      if entry.Dir? && !ShouldIgnoreDir(entry.name) {
        entries := entries + [entry];
      } else if entry.File? && !ShouldIgnoreFile(entry.name) {
        entries := entries + [entry];
      }
      i := i + 1;
    }
  }

  lemma FilterStep(s: seq<Node>, i: nat, done: seq<Node>)
    requires i < |s|
    ensures done + Filter(Kept, s[i..]) == (if Kept(s[i]) then done + [s[i]] else done) + Filter(Kept, s[i + 1..])
  {
    assert s[i..][1..] == s[i + 1..];
  }

  lemma NotLessTransitive(a: string, b: string, c: string)
    requires !Less(b, a) && !Less(c, b)
    ensures !Less(c, a)
  {
    LessTotal(a, b);
    LessTotal(b, c);
    if Less(a, b) && Less(b, c) {
      LessTransitive(a, b, c);
      LessAsymmetric(a, c);
    } else if Less(a, b) {
      LessAsymmetric(a, b);
    } else if Less(b, c) {
      LessAsymmetric(b, c);
    } else {
      LessIrreflexive(a);
    }
  }

  lemma SortedCons(a: Node, s: seq<Node>)
    requires LowerBound(a, s) && SortedByKey(s)
    ensures SortedByKey([a] + s)
  {
    forall i, j | 0 <= i < j < |[a] + s| ensures !Less(SortKey(([a] + s)[j]), SortKey(([a] + s)[i])) {
      if i > 0 {
        assert ([a] + s)[i] == s[i - 1] && ([a] + s)[j] == s[j - 1];
      } else {
        assert ([a] + s)[j] in s;
      }
    }
  }

  lemma SortedTail(s: seq<Node>)
    requires SortedByKey(s) && s != []
    ensures LowerBound(s[0], s[1..]) && SortedByKey(s[1..])
  {
    forall y | y in s[1..] ensures !Less(SortKey(y), SortKey(s[0])) {
      var j :| 0 <= j < |s[1..]| && s[1..][j] == y;
      assert s[j + 1] == y;
    }
    forall i, j | 0 <= i < j < |s[1..]| ensures !Less(SortKey(s[1..][j]), SortKey(s[1..][i])) {
      assert s[1..][i] == s[i + 1] && s[1..][j] == s[j + 1];
    }
  }

  lemma {:induction false} InsertSorted(x: Node, s: seq<Node>)
    requires SortedByKey(s)
    ensures SortedByKey(Insert(x, s))
  {
    if s == [] {
    } else if !Less(SortKey(s[0]), SortKey(x)) {
      SortedTail(s);
      forall y | y in s ensures !Less(SortKey(y), SortKey(x)) {
        if y != s[0] {
          assert y in s[1..] by { var j :| 0 <= j < |s| && s[j] == y; assert j > 0; assert s[1..][j - 1] == y; }
          NotLessTransitive(SortKey(x), SortKey(s[0]), SortKey(y));
        }
      }
      SortedCons(x, s);
    } else {
      SortedTail(s);
      InsertSorted(x, s[1..]);
      var r := Insert(x, s[1..]);
      InsertPermutes(x, s[1..]);
      forall y | y in r ensures !Less(SortKey(y), SortKey(s[0])) {
        assert y in multiset(r);
        if y == x {
          LessAsymmetric(SortKey(s[0]), SortKey(x));
        } else {
          assert y in multiset(s[1..]);
        }
      }
      SortedCons(s[0], r);
    }
  }

  lemma {:induction false} SortSorted(s: seq<Node>)
    ensures SortedByKey(SortByName(s))
  {
    if s != [] {
      SortSorted(s[1..]);
      InsertSorted(s[0], SortByName(s[1..]));
    }
  }

  lemma {:induction false} InsertWithKey(x: Node, s: seq<Node>, k: string)
    ensures WithKey(Insert(x, s), k) ==
      if SortKey(x) == k then [x] + WithKey(s, k) else WithKey(s, k)
  {
    if s == [] || !Less(SortKey(s[0]), SortKey(x)) {
      assert ([x] + s)[1..] == s;
    } else {
      LessIrreflexive(SortKey(x));
      InsertWithKey(x, s[1..], k);
      assert ([s[0]] + Insert(x, s[1..]))[1..] == Insert(x, s[1..]);
    }
  }

  /** Sorting keeps, for every key, the entries with that key in their
      original order. */
  lemma {:induction false} SortStable(s: seq<Node>, k: string)
    ensures WithKey(SortByName(s), k) == WithKey(s, k)
  {
    if s != [] {
      SortStable(s[1..], k);
      InsertWithKey(s[0], SortByName(s[1..]), k);
    }
  }

  lemma {:induction false} KeptWithKey(s: seq<Node>, k: string)
    ensures WithKey(Filter(Kept, s), k) == Filter(Kept, WithKey(s, k))
  {
    if s != [] {
      KeptWithKey(s[1..], k);
      var head := if Kept(s[0]) then [s[0]] else [];
      WithKeyAppend(head, Filter(Kept, s[1..]), k);
      var keyed := if SortKey(s[0]) == k then [s[0]] else [];
      FilterAppend(Kept, keyed, WithKey(s[1..], k));
    }
  }

  lemma {:induction false} WithKeyAppend(a: seq<Node>, b: seq<Node>, k: string)
    ensures WithKey(a + b, k) == WithKey(a, k) + WithKey(b, k)
  {
    if a == [] {
      assert a + b == b;
    } else {
      assert (a + b)[1..] == a[1..] + b;
      WithKeyAppend(a[1..], b, k);
    }
  }

  lemma {:induction false} FilterKeepsSorted(s: seq<Node>)
    requires SortedByKey(s)
    ensures SortedByKey(Filter(Kept, s))
  {
    if s != [] {
      SortedTail(s);
      FilterKeepsSorted(s[1..]);
      if Kept(s[0]) {
        SortedCons(s[0], Filter(Kept, s[1..]));
      }
    }
  }

  /** A renderer lists the kept entries of a directory sorted by lower-cased
      name, and entries with the same lower-cased name in enumeration order:
      for every key, the listed entries with that key are exactly the kept
      entries with that key, in the order the directory gave them. */
  lemma RetainedIsStableSortedSelection(children: seq<Node>)
    ensures SortedByKey(Retained(children))
    ensures forall k :: WithKey(Retained(children), k) == WithKey(Filter(Kept, children), k)
  {
    SortSorted(children);
    FilterKeepsSorted(SortByName(children));
    forall k ensures WithKey(Retained(children), k) == WithKey(Filter(Kept, children), k) {
      KeptWithKey(SortByName(children), k);
      SortStable(children, k);
      KeptWithKey(children, k);
    }
  }

  /** Every directory a renderer descends into can be listed: `build_tree`
      and `build_markdown_tree` let the `PermissionError` of an unreadable
      directory escape, so they are only defined on such trees. Ignored
      directories are never listed and may be unreadable. */
  predicate Listable(d: Node)
    decreases d
  {
    d.Dir? && d.readable && forall e | e in Retained(d.children) && e.Dir? :: Listable(e)
  }

  /** A name as a file system hands it out: non-empty, without "/" and, as
      this model assumes, without line boundaries. */
  predicate ProperName(n: string) {
    n != [] && NoSlash(n) && NoBreak(n)
  }

  /** Every entry below `d` has a proper name (the name of `d` itself, the
      root the user passes in, is not constrained). */
  predicate WellNamed(d: Node)
    decreases d
  {
    d.Dir? ==> forall c | c in d.children :: ProperName(c.name) && WellNamed(c)
  }

  /** One kept entry of the tree: its depth, name, kind, whether it is the
      last entry listed in its directory, and `above`: for each directory
      between the top of the outline and the entry, top-most first, whether
      that directory is the last entry of its own directory. */
  datatype Entry = Entry(depth: nat, name: string, isDir: bool, last: bool, above: seq<bool>)

  /** The kept tree below `d` in pre-order, children of `d` at `depth` with
      ancestors `above`; a directory that cannot be listed contributes no
      entries. */
  function Outline(d: Node, depth: nat, above: seq<bool>): seq<Entry>
    requires d.Dir?
    decreases d, 1
  {
    if !d.readable then [] else OutlineUpTo(d, |Retained(d.children)|, depth, above)
  }

  /** The outline contributed by the first `n` listed entries of `d`. */
  function OutlineUpTo(d: Node, n: nat, depth: nat, above: seq<bool>): seq<Entry>
    requires d.Dir? && n <= |Retained(d.children)|
    decreases d, 0, n
  {
    if n == 0 then []
    else
      var entries := Retained(d.children);
      var e := entries[n - 1];
      assert e in d.children;
      OutlineUpTo(d, n - 1, depth, above) + EntryOutline(e, n == |entries|, depth, above)
  }

  /** The outline one listed entry contributes: the entry itself, then, for a
      directory, the outline below it. */
  function EntryOutline(e: Node, last: bool, depth: nat, above: seq<bool>): seq<Entry>
    decreases e, 2
  {
    [Entry(depth, e.name, e.Dir?, last, above)] + if e.Dir? then Outline(e, depth + 1, above + [last]) else []
  }

  lemma OutlineStep(d: Node, i: nat, depth: nat, above: seq<bool>)
    requires d.Dir? && i < |Retained(d.children)|
    ensures var entries := Retained(d.children);
      OutlineUpTo(d, i + 1, depth, above) == OutlineUpTo(d, i, depth, above) + EntryOutline(entries[i], i + 1 == |entries|, depth, above)
  {
  }
}
