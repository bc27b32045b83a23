/** `dump_code_content`: a top-down `os.walk` of the tree that skips ignored
    directories, writing a header per visited directory and the text of every
    interesting file. */
module ContentDump {
  import opened Seqs
  import opened Paths
  import opened Filters
  import opened FsTree
  import opened Output

  /** A directory the walk reaches: its node, the path it is reached by
      (`dirpath`), and the names of the directories leading to it from the
      root (what `os.path.relpath(dirpath, root_dir)` spells). */
  datatype Visit = Visit(dir: Node, path: string, names: seq<string>)

  /** The subdirectories `os.walk` descends into after the caller has pruned
      `dirnames`: directories, in listing order, whose names are not ignored. */
  predicate Descended(n: Node) {
    n.Dir? && !ShouldIgnoreDir(n.name)
  }

  /** What `os.walk` lists under `filenames`: every entry that is not a
      directory, in listing order. */
  predicate NonDir(n: Node) {
    !n.Dir?
  }

  /** None of `fs` is a directory. */
  predicate NoDirs(fs: seq<Node>) {
    forall i :: 0 <= i < |fs| ==> !fs[i].Dir?
  }

  lemma FilesAreNotDirs(cs: seq<Node>)
    ensures NoDirs(Filter(NonDir, cs))
  {
    var fs := Filter(NonDir, cs);
    forall i | 0 <= i < |fs|
      ensures !fs[i].Dir?
    {
      assert fs[i] in fs;
    }
  }

  /** The directories the walk yields below `d` (reached by `path`), in the
      order it yields them: `d` itself, then the walk of each descended
      subdirectory in turn. A directory that cannot be listed is skipped
      silently, with everything below it. */
  function Walk(d: Node, path: string, names: seq<string>): (r: seq<Visit>)
    requires d.Dir?
    ensures forall v | v in r :: v.dir.Dir?
    decreases d, 1
  {
    if !d.readable then []
    else [Visit(d, path, names)] + WalkAll(d, Filter(Descended, d.children), path, names)
  }

  function WalkAll(d: Node, ds: seq<Node>, path: string, names: seq<string>): (r: seq<Visit>)
    requires d.Dir? && forall x | x in ds :: x in d.children && x.Dir?
    ensures forall v | v in r :: v.dir.Dir?
    decreases d, 0, |ds|
  {
    if ds == [] then []
    else
      var x := ds[0];
      assert x in ds;
      Walk(x, Join(path, x.name), names + [x.name]) + WalkAll(d, ds[1..], path, names)
  }

  /** `rel_path` after the `"."` case is mapped to `""`. */
  function RelPath(names: seq<string>): string {
    JoinAll("", names)
  }

  function FolderHeader(names: seq<string>, rootDir: string): string {
    var rel := RelPath(names);
    "\n=== Folder: " + (if rel == "" then rootDir else rel) + " ===\n"
  }

  /** What follows a file header: the text read and a newline, or the error
      marker. */
  function ReadText(r: ReadOutcome): string {
    match r
    case Content(text) => text + "\n"
    case ReadError(reason) => "[Lỗi đọc file: " + reason + "]\n"
  }

  /** The output for one entry of `filenames` in directory `dirpath`. */
  function FileSection(f: Node, dirpath: string): string
    requires !f.Dir?
  {
    if ShouldIgnoreFile(f.name) || !IsInterestingFile(f.name) then ""
    else "\n--- File: " + Join(dirpath, f.name) + " ---\n" + ReadText(f.read)
  }

  function FilesText(fs: seq<Node>, dirpath: string): string
    requires NoDirs(fs)
  {
    if fs == [] then ""
    else
      assert NoDirs(fs[..|fs| - 1]);
      FilesText(fs[..|fs| - 1], dirpath) + FileSection(fs[|fs| - 1], dirpath)
  }

  function VisitText(v: Visit, rootDir: string): string
    requires v.dir.Dir?
  {
    FilesAreNotDirs(v.dir.children);
    FolderHeader(v.names, rootDir) + FilesText(Filter(NonDir, v.dir.children), v.path)
  }

  function Text(vs: seq<Visit>, rootDir: string): string
    requires forall v | v in vs :: v.dir.Dir?
  {
    if vs == [] then "" else VisitText(vs[0], rootDir) + Text(vs[1..], rootDir)
  }

  /** Everything `dump_code_content(root_dir, out)` writes. */
  function Dump(root: Node, rootDir: string): string
    requires root.Dir?
  {
    Text(Walk(root, rootDir, []), rootDir)
  }

  lemma {:induction false} TextAppend(a: seq<Visit>, b: seq<Visit>, rootDir: string)
    requires forall v | v in a + b :: v.dir.Dir?
    ensures Text(a + b, rootDir) == Text(a, rootDir) + Text(b, rootDir)
  {
    if a == [] {
      assert a + b == b;
    } else {
      assert (a + b)[1..] == a[1..] + b;
      TextAppend(a[1..], b, rootDir);
    }
  }

  predicate FramesOk(stack: seq<Visit>) {
    forall f | f in stack :: f.dir.Dir?
  }

  /** The visits still to come when `os.walk` holds `stack`: the walk below
      the frame on top (the last element), then those below it. */
  function Pending(stack: seq<Visit>): (r: seq<Visit>)
    requires FramesOk(stack)
    ensures forall v | v in r :: v.dir.Dir?
  {
    if stack == [] then []
    else
      var top := stack[|stack| - 1];
      Walk(top.dir, top.path, top.names) + Pending(stack[..|stack| - 1])
  }

  /** `dump_code_content`, with `os.walk` written out as the explicit stack
      CPython uses: pop a directory, list it (skipping it if that fails),
      hand it to the loop body, then push its remaining `dirnames` in
      reverse so that the first is walked next. */
  method DumpCodeContent(root: Node, rootDir: string, out: OutputFile)
    requires root.Dir?
    modifies out
    ensures out.text == old(out.text) + Dump(root, rootDir)
  {
    var stack := [Visit(root, rootDir, [])];
    assert Pending(stack) == Walk(root, rootDir, []) by {
      assert stack[..0] == [];
    }
    while stack != []
      invariant FramesOk(stack)
      invariant out.text + Text(Pending(stack), rootDir) == old(out.text) + Dump(root, rootDir)
      decreases |Pending(stack)|, |stack|
    {
      var top := stack[|stack| - 1];
      var rest := stack[..|stack| - 1];
      PendingPop(stack);
      ghost var pending := Pending(stack);
      stack := rest;
      if !top.dir.readable {
        assert pending == Pending(rest);
        continue;
      }
      var dirpath := top.path;
      var dirnames := Filter(IsDirectory, top.dir.children);
      var filenames := Filter(NonDir, top.dir.children);
      FilesAreNotDirs(top.dir.children);
      ghost var before := out.text;
      dirnames := WalkBody(dirpath, top.names, dirnames, filenames, rootDir, out);
      PrunedIsDescended(top.dir.children);
      // `os.walk` resumes: push the pruned subdirectories, last one first
      stack := PushSubdirs(rest, top.dir, dirpath, top.names, dirnames);
      VisitStep(top, rest, rootDir);
      AppendAssoc(before, VisitText(top, rootDir), Text(Pending(stack), rootDir));
      assert out.text == before + VisitText(top, rootDir);
      assert Text(pending, rootDir) == VisitText(top, rootDir) + Text(Pending(stack), rootDir);
    }
  }

  /** Popping the top frame leaves the walk below it still to come. */
  lemma PendingPop(stack: seq<Visit>)
    requires FramesOk(stack) && stack != []
    ensures FramesOk(stack[..|stack| - 1])
    ensures var top := stack[|stack| - 1];
      Pending(stack) == Walk(top.dir, top.path, top.names) + Pending(stack[..|stack| - 1])
  {
  }

  /** A readable directory's walk is its own visit followed by the walks of
      its descended subdirectories. */
  lemma VisitStep(top: Visit, rest: seq<Visit>, rootDir: string)
    requires FramesOk(rest) && top.dir.Dir? && top.dir.readable
    ensures
      var tail := WalkAll(top.dir, Filter(Descended, top.dir.children), top.path, top.names) + Pending(rest);
      Text(Walk(top.dir, top.path, top.names) + Pending(rest), rootDir) == VisitText(top, rootDir) + Text(tail, rootDir) &&
      |Walk(top.dir, top.path, top.names) + Pending(rest)| == |tail| + 1
  {
    var tail := WalkAll(top.dir, Filter(Descended, top.dir.children), top.path, top.names) + Pending(rest);
    assert Walk(top.dir, top.path, top.names) + Pending(rest) == [top] + tail;
    assert ([top] + tail)[1..] == tail;
  }

  /** The end of one `os.walk` step: `for dirname in reversed(dirs):
      stack.append(join(top, dirname))`. */
  method PushSubdirs(stack: seq<Visit>, d: Node, dirpath: string, names: seq<string>, dirnames: seq<Node>)
    returns (pushed: seq<Visit>)
    requires FramesOk(stack) && d.Dir?
    requires forall x | x in dirnames :: x in d.children && x.Dir?
    ensures FramesOk(pushed)
    ensures Pending(pushed) == WalkAll(d, dirnames, dirpath, names) + Pending(stack)
  {
    pushed := stack;
    var j := |dirnames|;
    assert dirnames[j..] == [];
    while j > 0
      invariant 0 <= j <= |dirnames|
      invariant FramesOk(pushed)
      invariant Pending(pushed) == WalkAll(d, dirnames[j..], dirpath, names) + Pending(stack)
    {
      j := j - 1;
      var sub := dirnames[j];
      PushStep(stack, pushed, d, dirpath, names, dirnames, j);
      pushed := pushed + [Visit(sub, Join(dirpath, sub.name), names + [sub.name])];
    }
    assert dirnames[0..] == dirnames;
  }

  /** Pushing the frame of `dirnames[j]` puts its walk in front of the walks
      of the directories after it. */
  lemma PushStep(stack: seq<Visit>, pushed: seq<Visit>, d: Node, dirpath: string, names: seq<string>,
                 dirnames: seq<Node>, j: nat)
    requires FramesOk(stack) && FramesOk(pushed) && d.Dir? && j < |dirnames|
    requires forall x | x in dirnames :: x in d.children && x.Dir?
    requires Pending(pushed) == WalkAll(d, dirnames[j + 1..], dirpath, names) + Pending(stack)
    ensures
      var sub := dirnames[j];
      var next := pushed + [Visit(sub, Join(dirpath, sub.name), names + [sub.name])];
      FramesOk(next) &&
      Pending(next) == WalkAll(d, dirnames[j..], dirpath, names) + Pending(stack)
  {
    var sub := dirnames[j];
    assert sub in dirnames;
    var v := Visit(sub, Join(dirpath, sub.name), names + [sub.name]);
    var next := pushed + [v];
    assert next[..|next| - 1] == pushed;
    var w := Walk(sub, v.path, v.names);
    assert Pending(next) == w + Pending(pushed);
    assert dirnames[j..][1..] == dirnames[j + 1..];
    assert WalkAll(d, dirnames[j..], dirpath, names) == w + WalkAll(d, dirnames[j + 1..], dirpath, names);
    AppendAssoc(w, WalkAll(d, dirnames[j + 1..], dirpath, names), Pending(stack));
  }

  /** The body of the `for dirpath, dirnames, filenames in os.walk(root_dir)`
      loop: prune `dirnames` in place (returned here as its new value), write
      the folder header, then a section per interesting file. */
  method WalkBody(dirpath: string, names: seq<string>, dirnames: seq<Node>, filenames: seq<Node>,
                  rootDir: string, out: OutputFile) returns (pruned: seq<Node>)
    requires NoDirs(filenames)
    modifies out
    ensures pruned == Filter(NotIgnored, dirnames)
    ensures out.text == old(out.text) + (FolderHeader(names, rootDir) + FilesText(filenames, dirpath))
  {
    pruned := Filter(NotIgnored, dirnames);
    var rel := RelPath(names);
    var header := "\n=== Folder: " + (if rel == "" then rootDir else rel) + " ===\n";
    out.Write(header);
    ghost var start := out.text;
    var i := 0;
    while i < |filenames|
      invariant 0 <= i <= |filenames|
      invariant out.text == start + FilesText(filenames[..i], dirpath)
    {
      var f := filenames[i];
      FilesTextStep(filenames, i, dirpath);
      AppendAssoc(start, FilesText(filenames[..i], dirpath), FileSection(f, dirpath));
      WriteFileSection(f, dirpath, out);
      i := i + 1;
    }
    assert filenames[..i] == filenames;
    AppendAssoc(old(out.text), header, FilesText(filenames, dirpath));
  }

  /** One pass of the `for filename in filenames` loop: skip an ignored or
      uninteresting file, otherwise write its header and then its text, or
      the error marker when reading fails. */
  method WriteFileSection(f: Node, dirpath: string, out: OutputFile)
    requires !f.Dir?
    modifies out
    ensures out.text == old(out.text) + FileSection(f, dirpath)
  {
    if ShouldIgnoreFile(f.name) || !IsInterestingFile(f.name) {
      return;
    }
    var filePath := Join(dirpath, f.name);
    var fileHeader := "\n--- File: " + filePath + " ---\n";
    out.Write(fileHeader);
    match f.read {
      case Content(content) =>
        out.Write(content + "\n");
      case ReadError(e) =>
        out.Write("[Lỗi đọc file: " + e + "]\n");
    }
    AppendAssoc(old(out.text), fileHeader, ReadText(f.read));
  }

  lemma FilesTextStep(fs: seq<Node>, i: nat, dirpath: string)
    requires i < |fs| && NoDirs(fs)
    ensures FilesText(fs[..i + 1], dirpath) == FilesText(fs[..i], dirpath) + FileSection(fs[i], dirpath)
  {
    assert fs[..i + 1][..i] == fs[..i];
  }

  predicate IsDirectory(n: Node) {
    n.Dir?
  }

  predicate NotIgnored(n: Node) {
    !ShouldIgnoreDir(n.name)
  }

  /** Pruning the listed directories by name leaves the descended ones. */
  lemma {:induction false} PrunedIsDescended(cs: seq<Node>)
    ensures Filter(NotIgnored, Filter(IsDirectory, cs)) == Filter(Descended, cs)
  {
    if cs != [] {
      PrunedIsDescended(cs[1..]);
      var head := if IsDirectory(cs[0]) then [cs[0]] else [];
      FilterAppend(NotIgnored, head, Filter(IsDirectory, cs[1..]));
    }
  }

  /** The header names the root directory itself only for the root: the
      relative path is empty exactly when no directory names lead to it. */
  lemma {:induction false} RelPathEmpty(names: seq<string>)
    requires forall n | n in names :: n != []
    ensures RelPath(names) == "" <==> names == []
  {
    if names != [] {
      assert names[|names| - 1] in names;
      JoinNonEmpty(JoinAll("", names[..|names| - 1]), names[|names| - 1]);
    }
  }

  /** What holds of every directory the walk yields: it could be listed, it
      is reached by the path its names spell under the root, and no name on
      the way is an ignored directory name. */
  predicate VisitOk(v: Visit, rootDir: string) {
    v.dir.Dir? && v.dir.readable && v.path == JoinAll(rootDir, v.names) &&
    forall n | n in v.names :: !ShouldIgnoreDir(n)
  }

  /** Ignored directories and everything below them are never visited, nor is
      a directory that cannot be listed; each directory is reached by the
      path its names spell. */
  lemma {:induction false} WalkVisitsOk(d: Node, path: string, names: seq<string>, rootDir: string)
    requires d.Dir? && path == JoinAll(rootDir, names)
    requires forall n | n in names :: !ShouldIgnoreDir(n)
    ensures forall v | v in Walk(d, path, names) :: VisitOk(v, rootDir)
    decreases d, 1
  {
    if d.readable {
      WalkAllVisitsOk(d, Filter(Descended, d.children), path, names, rootDir);
    }
  }

  lemma {:induction false} WalkAllVisitsOk(d: Node, ds: seq<Node>, path: string, names: seq<string>, rootDir: string)
    requires d.Dir? && forall x | x in ds :: x in d.children && x.Dir? && !ShouldIgnoreDir(x.name)
    requires path == JoinAll(rootDir, names)
    requires forall n | n in names :: !ShouldIgnoreDir(n)
    ensures forall v | v in WalkAll(d, ds, path, names) :: VisitOk(v, rootDir)
    decreases d, 0, |ds|
  {
    if ds != [] {
      var x := ds[0];
      assert x in ds;
      var names' := names + [x.name];
      assert names'[..|names|] == names;
      WalkVisitsOk(x, Join(path, x.name), names', rootDir);
      WalkAllVisitsOk(d, ds[1..], path, names, rootDir);
    }
  }

  /** The names leading to a visited directory, past those the walk started
      with, are proper names when the tree is well named. */
  lemma {:induction false} WalkNamesProper(d: Node, path: string, names: seq<string>)
    requires d.Dir? && WellNamed(d) && forall n | n in names :: ProperName(n)
    ensures forall v | v in Walk(d, path, names) :: forall n | n in v.names :: ProperName(n)
    ensures forall v | v in Walk(d, path, names) :: v.names == [] ==> v == Visit(d, path, names)
    decreases d, 1
  {
    if d.readable {
      WalkAllNamesProper(d, Filter(Descended, d.children), path, names);
    }
  }

  lemma {:induction false} WalkAllNamesProper(d: Node, ds: seq<Node>, path: string, names: seq<string>)
    requires d.Dir? && WellNamed(d) && forall x | x in ds :: x in d.children && x.Dir?
    requires forall n | n in names :: ProperName(n)
    ensures forall v | v in WalkAll(d, ds, path, names) :: (forall n | n in v.names :: ProperName(n)) && v.names != []
    decreases d, 0, |ds|
  {
    if ds != [] {
      var x := ds[0];
      assert x in ds;
      var names' := names + [x.name];
      WalkNamesProper(x, Join(path, x.name), names');
      WalkAllNamesProper(d, ds[1..], path, names);
    }
  }

  /** The folder header shows `root_dir` for the root and the relative path
      for every other visited directory. */
  lemma FolderHeaders(root: Node, rootDir: string)
    requires root.Dir? && WellNamed(root)
    ensures forall v | v in Walk(root, rootDir, []) ::
      FolderHeader(v.names, rootDir) ==
        "\n=== Folder: " + (if v == Visit(root, rootDir, []) then rootDir else RelPath(v.names)) + " ===\n"
  {
    WalkNamesProper(root, rootDir, []);
    forall v | v in Walk(root, rootDir, [])
      ensures FolderHeader(v.names, rootDir) ==
        "\n=== Folder: " + (if v == Visit(root, rootDir, []) then rootDir else RelPath(v.names)) + " ===\n"
    {
      RelPathEmpty(v.names);
    }
  }

  /** The walk below a descended subdirectory is part of its parent's walk. */
  lemma {:induction false} WalkAllContains(d: Node, ds: seq<Node>, path: string, names: seq<string>, x: Node)
    requires d.Dir? && forall y | y in ds :: y in d.children && y.Dir?
    requires x in ds
    ensures forall w | w in Walk(x, Join(path, x.name), names + [x.name]) :: w in WalkAll(d, ds, path, names)
    decreases |ds|
  {
    if ds[0] != x {
      WalkAllContains(d, ds[1..], path, names, x);
    }
  }

  /** Nothing is skipped: below every visited directory, each subdirectory
      that is not ignored and can be listed is visited too, reached by its
      own path. */
  lemma {:induction false} WalkCovers(d: Node, path: string, names: seq<string>)
    requires d.Dir?
    ensures forall v, c | v in Walk(d, path, names) && c in v.dir.children && Descended(c) && c.readable ::
      Visit(c, Join(v.path, c.name), v.names + [c.name]) in Walk(d, path, names)
    decreases d, 1
  {
    if d.readable {
      var ds := Filter(Descended, d.children);
      WalkAllCovers(d, ds, path, names);
      forall v, c | v in Walk(d, path, names) && c in v.dir.children && Descended(c) && c.readable
        ensures Visit(c, Join(v.path, c.name), v.names + [c.name]) in Walk(d, path, names)
      {
        if v == Visit(d, path, names) {
          FilterKeeps(Descended, d.children, c);
          WalkAllContains(d, ds, path, names, c);
          assert Walk(c, Join(path, c.name), names + [c.name])[0] == Visit(c, Join(path, c.name), names + [c.name]);
        }
      }
    }
  }

  lemma {:induction false} WalkAllCovers(d: Node, ds: seq<Node>, path: string, names: seq<string>)
    requires d.Dir? && forall x | x in ds :: x in d.children && x.Dir?
    ensures forall v, c | v in WalkAll(d, ds, path, names) && c in v.dir.children && Descended(c) && c.readable ::
      Visit(c, Join(v.path, c.name), v.names + [c.name]) in WalkAll(d, ds, path, names)
    decreases d, 0, |ds|
  {
    if ds != [] {
      var x := ds[0];
      assert x in ds;
      WalkCovers(x, Join(path, x.name), names + [x.name]);
      WalkAllCovers(d, ds[1..], path, names);
    }
  }

  /** Only interesting files get a section: the two-part skip test comes down
      to "not interesting". */
  lemma FileSectionShown(f: Node, dirpath: string)
    requires !f.Dir?
    ensures FileSection(f, dirpath) != "" <==> IsInterestingFile(f.name)
  {
    SkipTestIsNotInteresting(f.name);
  }
}
