/** `build_tree`: the `tree`-style drawing of a directory, one line per kept
    entry, with "├── "/"└── " connectors and "│   "/"    " guides. */
module AsciiTree {
  import opened Seqs
  import opened Strings
  import opened Lines
  import opened Filters
  import opened FsTree

  function Connector(last: bool): string {
    if last then "└── " else "├── "
  }

  /** What a directory's children get added to their prefix. */
  function Extension(last: bool): string {
    if last then "    " else "│   "
  }

  /** The lines `build_tree(d, prefix)` collects before joining them. */
  function TreeLines(d: Node, prefix: string): seq<string>
    requires Listable(d)
    decreases d, 1
  {
    LinesUpTo(d, |Retained(d.children)|, prefix)
  }

  /** The lines of the first `n` listed entries of `d`; a subdirectory's text
      is split back into lines, as the source does. */
  function LinesUpTo(d: Node, n: nat, prefix: string): seq<string>
    requires Listable(d) && n <= |Retained(d.children)|
    decreases d, 0, n
  {
    if n == 0 then []
    else
      var entries := Retained(d.children);
      var e := entries[n - 1];
      var last := n == |entries|;
      assert e in d.children;
      LinesUpTo(d, n - 1, prefix) + EntryLines(e, last, prefix)
  }

  /** The lines one listed entry adds: its own line and, for a directory, the
      lines of its drawing. */
  function EntryLines(e: Node, last: bool, prefix: string): seq<string>
    requires e.Dir? ==> Listable(e)
    decreases e, 3
  {
    if e.Dir? then
      [prefix + Connector(last) + e.name + "/"] + SplitLines(TreeText(e, prefix + Extension(last)))
    else
      [prefix + Connector(last) + e.name]
  }

  /** The result of `build_tree(d, prefix)`. */
  function TreeText(d: Node, prefix: string): string
    requires Listable(d)
    decreases d, 2
  {
    JoinLines(TreeLines(d, prefix))
  }

  /** `build_tree`: list and sort the directory, keep the non-ignored
      directories and files, then draw each kept entry and, below a
      directory, its own drawing. */
  method BuildTree(d: Node, prefix: string) returns (tree: string)
    requires Listable(d)
    ensures tree == TreeText(d, prefix)
    decreases d, 1
  {
    var entries := ScanEntries(d.children);
    var lines: seq<string> := [];
    var i := 0;
    while i < |entries|
      invariant 0 <= i <= |entries|
      invariant lines == LinesUpTo(d, i, prefix)
    {
      var entry := entries[i];
      LinesStep(d, i, prefix);
      RetainedEntry(d.children, i);
      var entryLines := DrawEntry(entry, i == |entries| - 1, prefix);
      lines := lines + entryLines;
      i := i + 1;
    }
    tree := JoinLines(lines);
  }

  /** One pass of the drawing loop: the entry's line and, below a
      directory, the lines of its own drawing. */
  method DrawEntry(entry: Node, last: bool, prefix: string) returns (lines: seq<string>)
    requires entry.Dir? ==> Listable(entry)
    ensures lines == EntryLines(entry, last, prefix)
    decreases entry, 2
  {
    var connector := if last then "└── " else "├── ";
    if entry.Dir? {
      lines := [prefix + connector + entry.name + "/"];
      var extension := if last then "    " else "│   ";
      var sub := BuildTree(entry, prefix + extension);
      lines := lines + SplitLines(sub);
    } else {
      lines := [prefix + connector + entry.name];
    }
  }

  lemma LinesStep(d: Node, i: nat, prefix: string)
    requires Listable(d) && i < |Retained(d.children)|
    ensures var entries := Retained(d.children);
      LinesUpTo(d, i + 1, prefix) == LinesUpTo(d, i, prefix) + EntryLines(entries[i], i == |entries| - 1, prefix)
  {
  }

  /** How an outline entry is named in the drawing. */
  function Label(o: Entry): string {
    if o.isDir then o.name + "/" else o.name
  }

  /** The guides in front of an entry's connector: one per directory above
      it, top-most first, "    " below a last entry and "│   " below any
      other. */
  function Guide(flags: seq<bool>): (g: string)
    ensures |g| == 4 * |flags|
  {
    if flags == [] then "" else Extension(flags[0]) + Guide(flags[1..])
  }

  /** `line` draws `o` below a directory whose children sit at `depth` with
      ancestors `above`: `o` lies in that directory's subtree, and the line
      is `prefix`, then the guides of the directories between that directory
      and `o`, then the connector ("└── " exactly for a last entry), then the
      name, with a "/" after a directory's. */
  predicate DrawsEntry(line: string, prefix: string, o: Entry, depth: nat, above: seq<bool>) {
    o.depth >= depth && |o.above| == |above| + (o.depth - depth) && o.above[..|above|] == above &&
    line == prefix + Guide(o.above[|above|..]) + Connector(o.last) + Label(o)
  }

  /** A line drawn below a child directory with the extended prefix draws the
      same entry below its parent. */
  lemma DrawsShift(line: string, prefix: string, last: bool, o: Entry, depth: nat, above: seq<bool>)
    requires DrawsEntry(line, prefix + Extension(last), o, depth + 1, above + [last])
    ensures DrawsEntry(line, prefix, o, depth, above)
  {
    var n := |above|;
    var rest := o.above[n + 1..];
    assert o.above[..n] == o.above[..n + 1][..n];
    assert o.above[n] == o.above[..n + 1][n] == last;
    assert o.above[n..][1..] == rest;
    assert Guide(o.above[n..]) == Extension(last) + Guide(rest);
    assert line == prefix + Extension(last) + Guide(rest) + Connector(o.last) + Label(o);
  }

  lemma HeadDraws(prefix: string, o: Entry, above: seq<bool>)
    requires NoBreak(prefix) && ProperName(o.name) && o.above == above
    ensures LineOk(prefix + Connector(o.last) + Label(o))
    ensures DrawsEntry(prefix + Connector(o.last) + Label(o), prefix, o, o.depth, above)
  {
    var c := Connector(o.last);
    assert NoBreak(c);
    assert NoBreak("/");
    NoBreakAppend(o.name, "/");
    NoBreakAppend(prefix, c);
    NoBreakAppend(prefix + c, Label(o));
    assert o.above[|above|..] == [];
    assert prefix + Guide([]) == prefix;
  }

  /** Line k of `ls` is a proper line drawing entry k of `os`. */
  predicate DrawsAll(ls: seq<string>, prefix: string, os: seq<Entry>, depth: nat, above: seq<bool>) {
    |ls| == |os| &&
    forall k :: 0 <= k < |ls| ==> LineOk(ls[k]) && DrawsEntry(ls[k], prefix, os[k], depth, above)
  }

  lemma DrawsAllAppend(a: seq<string>, b: seq<string>, prefix: string, oa: seq<Entry>, ob: seq<Entry>,
                       depth: nat, above: seq<bool>)
    requires DrawsAll(a, prefix, oa, depth, above) && DrawsAll(b, prefix, ob, depth, above)
    ensures DrawsAll(a + b, prefix, oa + ob, depth, above)
  {
    forall k | 0 <= k < |a + b|
      ensures LineOk((a + b)[k]) && DrawsEntry((a + b)[k], prefix, (oa + ob)[k], depth, above)
    {
      if k >= |a| {
        assert (a + b)[k] == b[k - |a|] && (oa + ob)[k] == ob[k - |a|];
      }
    }
  }

  lemma DrawsAllShift(ls: seq<string>, prefix: string, last: bool, os: seq<Entry>, depth: nat, above: seq<bool>)
    requires DrawsAll(ls, prefix + Extension(last), os, depth + 1, above + [last])
    ensures DrawsAll(ls, prefix, os, depth, above)
  {
    forall k | 0 <= k < |ls| ensures DrawsEntry(ls[k], prefix, os[k], depth, above) {
      DrawsShift(ls[k], prefix, last, os[k], depth, above);
    }
  }

  /** Every line drawn with a prefix starts with it. */
  lemma DrawnBelow(ls: seq<string>, prefix: string, ext: string, os: seq<Entry>, depth: nat, above: seq<bool>)
    requires DrawsAll(ls, prefix + ext, os, depth, above)
    ensures forall k :: 0 <= k < |ls| ==> StartsWith(ls[k], prefix + ext)
  {
    forall k | 0 <= k < |ls| ensures StartsWith(ls[k], prefix + ext) {
      var rest := Guide(os[k].above[|above|..]) + Connector(os[k].last) + Label(os[k]);
      assert ls[k] == (prefix + ext) + rest;
      assert ls[k][..|prefix + ext|] == prefix + ext;
    }
  }

  /** The drawing of a listable, well-named directory has one line per entry
      of its outline, in the same order; line k is `prefix`, the guides of
      the directories above entry k ("    " below a last entry, "│   "
      below any other), the connector of entry k and its name; and
      splitting the joined text gives the lines back. */
  lemma {:induction false} TreeDrawsOutline(d: Node, prefix: string, depth: nat, above: seq<bool>)
    requires Listable(d) && WellNamed(d) && NoBreak(prefix)
    ensures DrawsAll(TreeLines(d, prefix), prefix, Outline(d, depth, above), depth, above)
    ensures SplitLines(TreeText(d, prefix)) == TreeLines(d, prefix)
    decreases d, 2
  {
    LinesUpToDrawOutline(d, |Retained(d.children)|, prefix, depth, above);
    SplitJoin(TreeLines(d, prefix));
  }

  lemma {:induction false} LinesUpToDrawOutline(d: Node, n: nat, prefix: string, depth: nat, above: seq<bool>)
    requires Listable(d) && WellNamed(d) && NoBreak(prefix) && n <= |Retained(d.children)|
    ensures DrawsAll(LinesUpTo(d, n, prefix), prefix, OutlineUpTo(d, n, depth, above), depth, above)
    decreases d, 1, n
  {
    if n > 0 {
      LinesUpToDrawOutline(d, n - 1, prefix, depth, above);
      BlockDrawsEntry(d, n, prefix, depth, above);
    }
  }

  /** Drawing the n-th listed entry of `d` extends a drawing of the entries
      before it by that entry's part of the outline. */
  lemma {:induction false} BlockDrawsEntry(d: Node, n: nat, prefix: string, depth: nat, above: seq<bool>)
    requires Listable(d) && WellNamed(d) && NoBreak(prefix) && 0 < n <= |Retained(d.children)|
    requires DrawsAll(LinesUpTo(d, n - 1, prefix), prefix, OutlineUpTo(d, n - 1, depth, above), depth, above)
    ensures DrawsAll(LinesUpTo(d, n, prefix), prefix, OutlineUpTo(d, n, depth, above), depth, above)
    decreases d, 0
  {
    var entries := Retained(d.children);
    var e := entries[n - 1];
    var last := n == |entries|;
    assert e in d.children;
    EntryDraws(e, last, prefix, depth, above);
    DrawsAllAppend(LinesUpTo(d, n - 1, prefix), EntryLines(e, last, prefix), prefix,
                   OutlineUpTo(d, n - 1, depth, above), EntryOutline(e, last, depth, above), depth, above);
  }

  /** A listed file draws as one line; a listed subdirectory as its own line
      followed by its drawing, every line of which starts with `prefix` and
      the subdirectory's guide ("    " when it is the last entry, "│   "
      otherwise). */
  lemma {:induction false} EntryDraws(e: Node, last: bool, prefix: string, depth: nat, above: seq<bool>)
    requires (e.Dir? ==> Listable(e)) && ProperName(e.name) && WellNamed(e) && NoBreak(prefix)
    ensures DrawsAll(EntryLines(e, last, prefix), prefix, EntryOutline(e, last, depth, above), depth, above)
    ensures forall k :: 1 <= k < |EntryLines(e, last, prefix)| ==>
      StartsWith(EntryLines(e, last, prefix)[k], prefix + Extension(last))
    decreases e, 3
  {
    var o := Entry(depth, e.name, e.Dir?, last, above);
    var head := prefix + Connector(last) + Label(o);
    HeadDraws(prefix, o, above);
    assert DrawsAll([head], prefix, [o], depth, above);
    if e.Dir? {
      assert head == prefix + Connector(last) + e.name + "/";
      var ext := Extension(last);
      assert NoBreak(ext);
      NoBreakAppend(prefix, ext);
      var below := TreeLines(e, prefix + ext);
      TreeDrawsOutline(e, prefix + ext, depth + 1, above + [last]);
      DrawsAllShift(below, prefix, last, Outline(e, depth + 1, above + [last]), depth, above);
      DrawsAllAppend([head], below, prefix, [o], Outline(e, depth + 1, above + [last]), depth, above);
      DrawnBelow(below, prefix, ext, Outline(e, depth + 1, above + [last]), depth + 1, above + [last]);
      assert EntryLines(e, last, prefix) == [head] + below;
    }
  }

  lemma {:induction false} FirstLineIsHead(d: Node, n: nat, prefix: string)
    requires Listable(d) && 0 < n <= |Retained(d.children)|
    ensures |LinesUpTo(d, n, prefix)| > 0 && |LinesUpTo(d, n, prefix)[0]| >= 4
    decreases n
  {
    if n > 1 {
      FirstLineIsHead(d, n - 1, prefix);
    }
  }

  /** A directory with nothing to list draws as the empty string, and only
      such a directory does. */
  lemma EmptyDirectoryDrawsNothing(d: Node, prefix: string)
    requires Listable(d)
    ensures TreeText(d, prefix) == "" <==> Retained(d.children) == []
  {
    if Retained(d.children) != [] {
      FirstLineIsHead(d, |Retained(d.children)|, prefix);
      JoinStartsWithFirst(TreeLines(d, prefix));
      assert |TreeText(d, prefix)| >= 4;
    } else {
      assert TreeLines(d, prefix) == [];
    }
  }
}
