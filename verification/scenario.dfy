/** A small project: `README.md`, `src/a.cs`, `bin/` and `.git/`, with any
    contents in the last two. The build and version-control directories
    disappear from the tree forms, which list `README.md` and then `src/`
    holding `a.cs`. */
module Scenario {
  import opened Seqs
  import opened Strings
  import opened Filters
  import opened FsTree
  import opened Paths
  import opened ContentDump

  /** The project's entries, listed in the order `src`, `bin`, `.git`,
      `README.md`. */
  predicate IsExample(root: Node, src: Node, bin: Node, git: Node, readme: Node, source: Node) {
    root.Dir? && root.readable && root.children == [src, bin, git, readme] &&
    src.Dir? && src.readable && src.name == "src" && src.children == [source] &&
    source.File? && source.name == "a.cs" &&
    bin.Dir? && bin.name == "bin" &&
    git.Dir? && git.name == ".git" &&
    readme.File? && readme.name == "README.md"
  }

  /** No ignored extension ends with `d` or `s`. */
  lemma NotIgnoredByLastChar(l: string)
    requires l != [] && (l[|l| - 1] == 'd' || l[|l| - 1] == 's')
    ensures !EndsWithAny(l, IgnoredExtensions)
  {
    forall e | e in IgnoredExtensions ensures !EndsWith(l, e) {
      LastCharOfSuffix(l, e);
    }
  }

  lemma LastCharOfSuffix(l: string, e: string)
    requires e != []
    ensures EndsWith(l, e) ==> l[|l| - 1] == e[|e| - 1]
  {
  }

  /** A string without capitals is its own lower case. */
  lemma LowerOfLower(s: string)
    requires forall i :: 0 <= i < |s| ==> !('A' <= s[i] <= 'Z')
    ensures Lower(s) == s
  {
  }

  lemma LowerReadme()
    ensures Lower("README.md") == "readme.md"
  {
  }

  lemma DirKeys(src: Node, bin: Node, git: Node)
    requires src.name == "src" && bin.name == "bin" && git.name == ".git"
    ensures SortKey(src) == "src" && SortKey(bin) == "bin" && SortKey(git) == ".git"
  {
    LowerOfLower(src.name);
    LowerOfLower(bin.name);
    LowerOfLower(git.name);
  }

  lemma ReadmeKey(readme: Node)
    requires readme.name == "README.md"
    ensures SortKey(readme) == "readme.md"
  {
    LowerReadme();
  }

  lemma SourceKey(source: Node)
    requires source.name == "a.cs"
    ensures SortKey(source) == "a.cs"
  {
    LowerOfLower(source.name);
  }

  lemma DirSelection(src: Node, bin: Node, git: Node)
    requires src.Dir? && bin.Dir? && git.Dir?
    requires src.name == "src" && bin.name == "bin" && git.name == ".git"
    ensures Kept(src) && !Kept(bin) && !Kept(git)
  {
    assert ".git"[..1] == ".";
    assert "src"[..1][0] == 's';
  }

  lemma FileSelection(readme: Node, source: Node)
    requires readme.File? && source.File?
    requires readme.name == "README.md" && source.name == "a.cs"
    ensures Kept(readme) && Kept(source)
  {
    ReadmeKey(readme);
    SourceKey(source);
    NotIgnoredByLastChar("readme.md");
    NotIgnoredByLastChar("a.cs");
  }

  /** The order of the four keys. */
  lemma KeyOrder()
    ensures Less(".git", "bin") && Less(".git", "src") && Less("bin", "src") && Less("readme.md", "src")
    ensures !Less("readme.md", ".git") && !Less("readme.md", "bin")
  {
  }

  lemma FilterCons(p: Node -> bool, x: Node, s: seq<Node>)
    ensures Filter(p, [x] + s) == (if p(x) then [x] else []) + Filter(p, s)
  {
    assert ([x] + s)[1..] == s;
  }

  /** Sorting the four keys puts `.git` and `bin` ahead of `readme.md`, and
      `src` last. */
  lemma SortOf(src: Node, bin: Node, git: Node, readme: Node)
    requires SortKey(src) == "src" && SortKey(bin) == "bin" && SortKey(git) == ".git" && SortKey(readme) == "readme.md"
    ensures SortByName([src, bin, git, readme]) == [git, bin, readme, src]
  {
    KeyOrder();
    var cs := [src, bin, git, readme];
    assert cs[1..] == [bin, git, readme] && cs[1..][1..] == [git, readme] && cs[1..][1..][1..] == [readme];
    assert SortByName([readme]) == [readme];
    assert Insert(git, [readme]) == [git, readme];
    assert SortByName([git, readme]) == [git, readme];
    assert Insert(bin, [readme]) == [bin, readme];
    assert Insert(bin, [git, readme]) == [git, bin, readme];
    assert SortByName([bin, git, readme]) == [git, bin, readme];
    assert Insert(src, [readme]) == [readme, src];
    assert Insert(src, [bin, readme]) == [bin, readme, src];
    assert Insert(src, [git, bin, readme]) == [git, bin, readme, src];
  }

  lemma ListingOf(src: Node, bin: Node, git: Node, readme: Node)
    requires SortKey(src) == "src" && SortKey(bin) == "bin" && SortKey(git) == ".git" && SortKey(readme) == "readme.md"
    requires Kept(src) && !Kept(bin) && !Kept(git) && Kept(readme)
    ensures Retained([src, bin, git, readme]) == [readme, src]
  {
    SortOf(src, bin, git, readme);
    FilterCons(Kept, src, []);
    FilterCons(Kept, readme, [src]);
    FilterCons(Kept, bin, [readme, src]);
    FilterCons(Kept, git, [bin, readme, src]);
  }

  /** A readable directory listing two entries outlines as those two. */
  lemma OutlineOfTwo(p: Node, a: Node, b: Node, depth: nat, above: seq<bool>)
    requires p.Dir? && p.readable && Retained(p.children) == [a, b]
    ensures Outline(p, depth, above) == EntryOutline(a, false, depth, above) + EntryOutline(b, true, depth, above)
  {
    OutlineStep(p, 0, depth, above);
    assert OutlineUpTo(p, 1, depth, above) == EntryOutline(a, false, depth, above);
    OutlineStep(p, 1, depth, above);
  }

  /** A readable directory listing one file outlines as that file. */
  lemma OutlineOfOne(p: Node, a: Node, depth: nat, above: seq<bool>)
    requires p.Dir? && p.readable && Retained(p.children) == [a] && a.File?
    ensures Outline(p, depth, above) == [Entry(depth, a.name, false, true, above)]
  {
    OutlineStep(p, 0, depth, above);
  }

  /** What the example's root lists. */
  lemma RootListing(root: Node, src: Node, bin: Node, git: Node, readme: Node, source: Node)
    requires IsExample(root, src, bin, git, readme, source)
    ensures Retained(root.children) == [readme, src]
  {
    DirKeys(src, bin, git);
    ReadmeKey(readme);
    DirSelection(src, bin, git);
    FileSelection(readme, source);
    ListingOf(src, bin, git, readme);
  }

  /** What `src/` lists. */
  lemma SrcListing(src: Node, source: Node)
    requires src.Dir? && src.children == [source] && source.File? && source.name == "a.cs"
    ensures Retained(src.children) == [source]
  {
    SourceKey(source);
    NotIgnoredByLastChar("a.cs");
    FilterCons(Kept, source, []);
    assert SortByName([source]) == [source];
  }

  /** A directory listing a file and then a directory that lists one file. */
  lemma TwoLevelOutline(root: Node, f: Node, sub: Node, g: Node)
    requires root.Dir? && root.readable && Retained(root.children) == [f, sub]
    requires sub.Dir? && sub.readable && Retained(sub.children) == [g]
    requires f.File? && g.File?
    ensures Outline(root, 0, []) == [Entry(0, f.name, false, false, []), Entry(0, sub.name, true, true, []), Entry(1, g.name, false, true, [true])]
  {
    OutlineOfOne(sub, g, 1, [true]);
    assert [] + [true] == [true];
    OutlineOfTwo(root, f, sub, 0, []);
    assert EntryOutline(f, false, 0, []) == [Entry(0, f.name, false, false, [])];
    assert EntryOutline(sub, true, 0, []) == [Entry(0, sub.name, true, true, []), Entry(1, g.name, false, true, [true])];
  }

  /** The tree forms list `README.md`, then `src/` holding `a.cs`. */
  lemma ExampleOutline(root: Node, src: Node, bin: Node, git: Node, readme: Node, source: Node)
    requires IsExample(root, src, bin, git, readme, source)
    ensures Outline(root, 0, []) ==
      [Entry(0, readme.name, false, false, []), Entry(0, src.name, true, true, []), Entry(1, source.name, false, true, [true])]
  {
    RootListing(root, src, bin, git, readme, source);
    SrcListing(src, source);
    TwoLevelOutline(root, readme, src, source);
  }

  /** The walk of a readable directory from which it descends into nothing
      is just its own visit. */
  lemma WalkOfLeaf(d: Node, path: string, names: seq<string>)
    requires d.Dir? && d.readable && Filter(Descended, d.children) == []
    ensures Walk(d, path, names) == [Visit(d, path, names)]
  {
  }

  /** A directory that descends into one directory, which descends into
      nothing, is walked as itself and then that directory. */
  lemma WalkOfOneSub(d: Node, sub: Node, path: string, names: seq<string>)
    requires d.Dir? && d.readable && Filter(Descended, d.children) == [sub]
    requires sub.Dir? && sub.readable && Filter(Descended, sub.children) == []
    ensures Walk(d, path, names) == [Visit(d, path, names), Visit(sub, Join(path, sub.name), names + [sub.name])]
  {
    var ds := [sub];
    assert ds[1..] == [];
    assert WalkAll(d, ds, path, names) == Walk(sub, Join(path, sub.name), names + [sub.name]);
  }

  /** Of the example's entries, the walk descends into `src/` only. */
  lemma ExampleDescends(root: Node, src: Node, bin: Node, git: Node, readme: Node, source: Node)
    requires IsExample(root, src, bin, git, readme, source)
    ensures Filter(Descended, root.children) == [src] && Filter(Descended, src.children) == []
  {
    DirSelection(src, bin, git);
    FilterCons(Descended, readme, []);
    FilterCons(Descended, git, [readme]);
    FilterCons(Descended, bin, [git, readme]);
    FilterCons(Descended, src, [bin, git, readme]);
    FilterCons(Descended, source, []);
  }

  /** The content dump visits the root and then `src/`, and never `bin/` or
      `.git/`. */
  lemma ExampleWalk(root: Node, src: Node, bin: Node, git: Node, readme: Node, source: Node, rootDir: string)
    requires IsExample(root, src, bin, git, readme, source)
    ensures Walk(root, rootDir, []) ==
      [Visit(root, rootDir, []), Visit(src, Join(rootDir, src.name), [src.name])]
  {
    ExampleDescends(root, src, bin, git, readme, source);
    WalkOfOneSub(root, src, rootDir, []);
    assert [] + [src.name] == [src.name];
  }

  /** `README.md` and `a.cs` are interesting, so each gets its header and
      its text (or the error marker) wherever it is listed. */
  lemma ExampleFilesShown(readme: Node, source: Node, p: string, q: string)
    requires readme.File? && readme.name == "README.md" && source.File? && source.name == "a.cs"
    ensures FileSection(readme, p) == "\n--- File: " + Join(p, readme.name) + " ---\n" + ReadText(readme.read)
    ensures FileSection(source, q) == "\n--- File: " + Join(q, source.name) + " ---\n" + ReadText(source.read)
  {
    ReadmeInteresting(readme);
    SourceInteresting(source);
  }

  lemma ReadmeInteresting(readme: Node)
    requires readme.name == "README.md"
    ensures IsInterestingFile(readme.name) && !ShouldIgnoreFile(readme.name)
  {
    LowerReadme();
    NotIgnoredByLastChar("readme.md");
    assert ".md" in InterestingExtensions && EndsWith("readme.md", ".md");
  }

  lemma SourceInteresting(source: Node)
    requires source.name == "a.cs"
    ensures IsInterestingFile(source.name) && !ShouldIgnoreFile(source.name)
  {
    LowerOfLower(source.name);
    NotIgnoredByLastChar("a.cs");
    assert ".cs" in InterestingExtensions && EndsWith("a.cs", ".cs");
  }
}
