/** `build_markdown_tree`: the directory as a nested Markdown bullet list,
    two spaces of indentation per level, directory names in bold with a
    trailing "/". */
module MarkdownTree {
  import opened Seqs
  import opened Strings
  import opened Lines
  import opened FsTree

  function Indentation(indent: nat): string {
    Repeat("  ", indent)
  }

  function DirBullet(indent: nat, name: string): string {
    Indentation(indent) + "- **" + name + "/**"
  }

  function FileBullet(indent: nat, name: string): string {
    Indentation(indent) + "- " + name
  }

  /** The lines `build_markdown_tree(d, indent)` collects before joining. */
  function MdLines(d: Node, indent: nat): seq<string>
    requires Listable(d)
    decreases d, 1
  {
    MdUpTo(d, |Retained(d.children)|, indent)
  }

  function MdUpTo(d: Node, n: nat, indent: nat): seq<string>
    requires Listable(d) && n <= |Retained(d.children)|
    decreases d, 0, n
  {
    if n == 0 then []
    else
      var e := Retained(d.children)[n - 1];
      assert e in d.children;
      MdUpTo(d, n - 1, indent) + MdEntryLines(e, indent)
  }

  /** A file adds its bullet; a directory its bullet and then the whole text
      of its own list as one more element (the empty string when it lists
      nothing). */
  function MdEntryLines(e: Node, indent: nat): seq<string>
    requires e.Dir? ==> Listable(e)
    decreases e, 3
  {
    if e.Dir? then [DirBullet(indent, e.name), MdText(e, indent + 1)]
    else [FileBullet(indent, e.name)]
  }

  /** The result of `build_markdown_tree(d, indent)`. */
  function MdText(d: Node, indent: nat): string
    requires Listable(d)
    decreases d, 2
  {
    JoinLines(MdLines(d, indent))
  }

  /** `build_markdown_tree`: select the entries as `build_tree` does, then
      add a bullet per entry and, after a directory's, its nested list. */
  method BuildMarkdownTree(d: Node, indent: nat) returns (md: string)
    requires Listable(d)
    ensures md == MdText(d, indent)
    decreases d, 1
  {
    var lines: seq<string> := [];
    var entries := ScanEntries(d.children);
    var i := 0;
    while i < |entries|
      invariant 0 <= i <= |entries|
      invariant lines == MdUpTo(d, i, indent)
    {
      var entry := entries[i];
      MdStep(d, i, indent);
      RetainedEntry(d.children, i);
      var entryLines := ListEntry(entry, indent);
      lines := lines + entryLines;
      i := i + 1;
    }
    md := JoinLines(lines);
  }

  /** One pass of the loop: the entry's bullet and, after a directory's,
      its nested list. */
  method ListEntry(entry: Node, indent: nat) returns (lines: seq<string>)
    requires entry.Dir? ==> Listable(entry)
    ensures lines == MdEntryLines(entry, indent)
    decreases entry, 2
  {
    var prefix := Indentation(indent);
    if entry.Dir? {
      lines := [prefix + "- **" + entry.name + "/**"];
      var sub := BuildMarkdownTree(entry, indent + 1);
      lines := lines + [sub];
    } else {
      lines := [prefix + "- " + entry.name];
    }
  }

  lemma MdStep(d: Node, i: nat, indent: nat)
    requires Listable(d) && i < |Retained(d.children)|
    ensures MdUpTo(d, i + 1, indent) == MdUpTo(d, i, indent) + MdEntryLines(Retained(d.children)[i], indent)
  {
  }

  /** Reference form of the list, line by line: a bullet per entry of the
      kept tree in pre-order, and one empty line right after the bullet of a
      directory that lists nothing. */
  function FlatLines(d: Node, indent: nat): seq<string>
    requires d.Dir?
    decreases d, 1
  {
    if !d.readable then [] else FlatUpTo(d, |Retained(d.children)|, indent)
  }

  function FlatUpTo(d: Node, n: nat, indent: nat): seq<string>
    requires d.Dir? && n <= |Retained(d.children)|
    decreases d, 0, n
  {
    if n == 0 then []
    else
      var e := Retained(d.children)[n - 1];
      assert e in d.children;
      FlatUpTo(d, n - 1, indent) + FlatEntry(e, indent)
  }

  function FlatEntry(e: Node, indent: nat): seq<string>
    decreases e, 2
  {
    if e.Dir? then
      var below := FlatLines(e, indent + 1);
      [DirBullet(indent, e.name)] + (if below == [] then [""] else below)
    else [FileBullet(indent, e.name)]
  }

  lemma {:induction false} FlatUpToEmpty(d: Node, n: nat, indent: nat)
    requires d.Dir? && n <= |Retained(d.children)|
    ensures FlatUpTo(d, n, indent) == [] <==> n == 0
  {
  }

  /** The nested joins of `build_markdown_tree` give the same text as joining
      the reference lines once, and a directory's list is empty exactly when
      it lists nothing. */
  lemma {:induction false} MarkdownIsFlat(d: Node, indent: nat)
    requires Listable(d)
    ensures MdText(d, indent) == JoinLines(FlatLines(d, indent))
    ensures FlatLines(d, indent) == [] <==> Retained(d.children) == []
    decreases d, 1
  {
    MdUpToIsFlat(d, |Retained(d.children)|, indent);
    FlatUpToEmpty(d, |Retained(d.children)|, indent);
  }

  lemma {:induction false} MdUpToIsFlat(d: Node, n: nat, indent: nat)
    requires Listable(d) && n <= |Retained(d.children)|
    ensures JoinLines(MdUpTo(d, n, indent)) == JoinLines(FlatUpTo(d, n, indent))
    decreases d, 0, n
  {
    if n > 0 {
      var e := Retained(d.children)[n - 1];
      assert e in d.children;
      MdEntryIsFlat(e, indent);
      if n > 1 {
        MdUpToIsFlat(d, n - 1, indent);
        FlatUpToEmpty(d, n - 1, indent);
        JoinAppend(MdUpTo(d, n - 1, indent), MdEntryLines(e, indent));
        JoinAppend(FlatUpTo(d, n - 1, indent), FlatEntry(e, indent));
      } else {
        assert MdUpTo(d, n, indent) == MdEntryLines(e, indent);
        assert FlatUpTo(d, n, indent) == FlatEntry(e, indent);
      }
    }
  }

  lemma {:induction false} MdEntryIsFlat(e: Node, indent: nat)
    requires e.Dir? ==> Listable(e)
    ensures JoinLines(MdEntryLines(e, indent)) == JoinLines(FlatEntry(e, indent))
    decreases e, 2
  {
    if e.Dir? {
      MarkdownIsFlat(e, indent + 1);
      var below := FlatLines(e, indent + 1);
      var tail := if below == [] then [""] else below;
      JoinAppend([DirBullet(indent, e.name)], tail);
      assert MdEntryLines(e, indent)[1..] == [MdText(e, indent + 1)];
    }
  }

  predicate NonEmpty(line: string) {
    line != ""
  }

  /** The Markdown bullet of one entry of the kept tree. */
  function Bullet(o: Entry): string {
    if o.isDir then DirBullet(o.depth, o.name) else FileBullet(o.depth, o.name)
  }

  /** Apart from the empty lines after empty directories, the reference lines
      are exactly the bullets of the kept tree in pre-order, at the depth of
      each entry. */
  lemma {:induction false} FlatLinesAreBullets(d: Node, indent: nat, above: seq<bool>)
    requires d.Dir?
    ensures Filter(NonEmpty, FlatLines(d, indent)) == Map(Bullet, Outline(d, indent, above))
    decreases d, 1
  {
    if d.readable {
      var entries := Retained(d.children);
      forall k | 0 <= k < |entries|
        ensures Filter(NonEmpty, FlatEntry(entries[k], indent))
             == Map(Bullet, EntryOutline(entries[k], k + 1 == |entries|, indent, above))
      {
        RetainedEntry(d.children, k);
        FlatEntryAreBullets(entries[k], indent, k + 1 == |entries|, above);
      }
      FlatUpToAreBullets(d, |entries|, indent, above);
    }
  }

  /** The first `n` listed entries, each of whose lines are its bullets,
      together give the bullets of the first `n` entries of the outline. */
  lemma FlatUpToAreBullets(d: Node, n: nat, indent: nat, above: seq<bool>)
    requires d.Dir? && n <= |Retained(d.children)|
    requires forall k :: 0 <= k < n ==>
      Filter(NonEmpty, FlatEntry(Retained(d.children)[k], indent))
        == Map(Bullet, EntryOutline(Retained(d.children)[k], k + 1 == |Retained(d.children)|, indent, above))
    ensures Filter(NonEmpty, FlatUpTo(d, n, indent)) == Map(Bullet, OutlineUpTo(d, n, indent, above))
  {
    var entries := Retained(d.children);
    var m := 0;
    while m < n
      invariant m <= n
      invariant Filter(NonEmpty, FlatUpTo(d, m, indent)) == Map(Bullet, OutlineUpTo(d, m, indent, above))
    {
      var e := entries[m];
      var last := m + 1 == |entries|;
      FlatStep(d, m, indent);
      OutlineStep(d, m, indent, above);
      FilterAppend(NonEmpty, FlatUpTo(d, m, indent), FlatEntry(e, indent));
      MapAppend(Bullet, OutlineUpTo(d, m, indent, above), EntryOutline(e, last, indent, above));
      m := m + 1;
    }
  }

  lemma FlatStep(d: Node, i: nat, indent: nat)
    requires d.Dir? && i < |Retained(d.children)|
    ensures FlatUpTo(d, i + 1, indent) == FlatUpTo(d, i, indent) + FlatEntry(Retained(d.children)[i], indent)
  {
  }

  lemma {:induction false} FlatEntryAreBullets(e: Node, indent: nat, last: bool, above: seq<bool>)
    ensures Filter(NonEmpty, FlatEntry(e, indent)) == Map(Bullet, EntryOutline(e, last, indent, above))
    decreases e, 2
  {
    var o := Entry(indent, e.name, e.Dir?, last, above);
    var head := if e.Dir? then DirBullet(indent, e.name) else FileBullet(indent, e.name);
    assert head == Bullet(o);
    assert NonEmpty(head) by {
      assert |head| >= 2;
    }
    var below := if e.Dir? then Outline(e, indent + 1, above + [last]) else [];
    MapAppend(Bullet, [o], below);
    if e.Dir? {
      FlatLinesAreBullets(e, indent + 1, above + [last]);
      var lines := FlatLines(e, indent + 1);
      var tail := if lines == [] then [""] else lines;
      FilterAppend(NonEmpty, [head], tail);
      if lines == [] {
        assert Filter(NonEmpty, tail) == [];
      }
    } else {
      assert Filter(NonEmpty, [head]) == [head];
    }
  }

  /** A directory that lists nothing gives the empty string, and only such a
      directory does. */
  lemma EmptyDirectoryListsNothing(d: Node, indent: nat)
    requires Listable(d)
    ensures MdText(d, indent) == "" <==> Retained(d.children) == []
  {
    MarkdownIsFlat(d, indent);
    var flat := FlatLines(d, indent);
    if flat != [] {
      FlatLinesAreBullets(d, indent, []);
      FirstFlatIsBullet(d, |Retained(d.children)|, indent);
      JoinStartsWithFirst(flat);
      assert |JoinLines(flat)| >= 2;
    }
  }

  lemma {:induction false} FirstFlatIsBullet(d: Node, n: nat, indent: nat)
    requires d.Dir? && 0 < n <= |Retained(d.children)|
    ensures |FlatUpTo(d, n, indent)| > 0 && |FlatUpTo(d, n, indent)[0]| >= 2
    decreases n
  {
    if n > 1 {
      FirstFlatIsBullet(d, n - 1, indent);
    }
  }
}
