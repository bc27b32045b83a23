/** `dump_project`: the four sections of the report, in order. */
module Report {
  import opened Strings
  import opened Lines
  import opened FsTree
  import opened AsciiTree
  import opened MarkdownTree
  import opened JsonTree
  import opened ContentDump
  import opened Output
  import opened Seqs

  const TreeTitle := "=== Project Tree ===\n"
  const MarkdownTitle := "=== Project Tree (Markdown) ===\n"
  const MarkdownHeading := "# Project Structure\n"
  const JsonTitle := "=== Project Tree (JSON) ===\n"
  const ContentTitle := "=== Project Files Content ===\n"

  /** The tree section: the root line, then `build_tree`'s lines. */
  function TreeSection(root: Node, rootDir: string): string
    requires Listable(root)
  {
    TreeTitle + rootDir + "/\n" + TreeText(root, "") + "\n\n"
  }

  function MarkdownSection(root: Node): string
    requires Listable(root)
  {
    MarkdownTitle + MarkdownHeading + MdText(root, 0) + "\n\n"
  }

  /** `serialize` stands for `json.dumps(..., indent=2, ensure_ascii=False)`. */
  function JsonSection(root: Node, rootDir: string, serialize: JNode -> string): string
    requires root.Dir?
  {
    JsonTitle + Serialized(serialize, JsonOf(root, rootDir)) + "\n\n"
  }

  /** The text `json.dumps` makes of a JSON tree. */
  function Serialized(serialize: JNode -> string, j: JNode): string {
    serialize(j)
  }

  function ContentSection(root: Node, rootDir: string): string
    requires root.Dir?
  {
    ContentTitle + Dump(root, rootDir)
  }

  /** The whole report file: the four sections in the order they are
      written. */
  function ReportText(root: Node, rootDir: string, serialize: JNode -> string): string
    requires Listable(root)
  {
    TreeSection(root, rootDir) + MarkdownSection(root) +
    JsonSection(root, rootDir, serialize) + ContentSection(root, rootDir)
  }

  /** `dump_project(root_dir, output_file)`: opens the output (here: a new,
      empty stream) and writes the four sections in turn. */
  method DumpProject(root: Node, rootDir: string, serialize: JNode -> string) returns (out: OutputFile)
    requires Listable(root)
    ensures fresh(out)
    ensures out.text == ReportText(root, rootDir, serialize)
  {
    out := new OutputFile();
    WriteTreeSection(root, rootDir, out);
    assert out.text == TreeSection(root, rootDir);
    WriteMarkdownSection(root, out);
    WriteJsonSection(root, rootDir, serialize, out);
    WriteContentSection(root, rootDir, out);
  }

  /** Writes `s` to `out`, keeping track of the section written so far:
      `out` holds `start` followed by `acc`, then `start` followed by
      `acc + s`. */
  method Append(out: OutputFile, s: string, ghost start: string, ghost acc: string)
    requires out.text == start + acc
    modifies out
    ensures out.text == start + (acc + s)
  {
    out.Write(s);
    AppendAssoc(start, acc, s);
  }

  method WriteTreeSection(root: Node, rootDir: string, out: OutputFile)
    requires Listable(root)
    modifies out
    ensures out.text == old(out.text) + TreeSection(root, rootDir)
  {
    ghost var start := out.text;
    assert out.text == start + [];
    Append(out, "=== Project Tree ===\n", start, []);
    Append(out, rootDir + "/\n", start, TreeTitle);
    var tree := BuildTree(root, "");
    Append(out, tree, start, TreeTitle + (rootDir + "/\n"));
    Append(out, "\n\n", start, TreeTitle + (rootDir + "/\n") + tree);
  }

  method WriteMarkdownSection(root: Node, out: OutputFile)
    requires Listable(root)
    modifies out
    ensures out.text == old(out.text) + MarkdownSection(root)
  {
    ghost var start := out.text;
    assert out.text == start + [];
    Append(out, "=== Project Tree (Markdown) ===\n", start, []);
    Append(out, "# Project Structure\n", start, MarkdownTitle);
    var md := BuildMarkdownTree(root, 0);
    Append(out, md, start, MarkdownTitle + MarkdownHeading);
    Append(out, "\n\n", start, MarkdownTitle + MarkdownHeading + md);
  }

  method WriteJsonSection(root: Node, rootDir: string, serialize: JNode -> string, out: OutputFile)
    requires root.Dir?
    modifies out
    ensures out.text == old(out.text) + JsonSection(root, rootDir, serialize)
  {
    ghost var start := out.text;
    assert out.text == start + [];
    Append(out, "=== Project Tree (JSON) ===\n", start, []);
    var jsonStructure := BuildJsonStructure(root, rootDir);
    var json := Serialized(serialize, jsonStructure);
    Append(out, json, start, JsonTitle);
    Append(out, "\n\n", start, JsonTitle + json);
  }

  method WriteContentSection(root: Node, rootDir: string, out: OutputFile)
    requires root.Dir?
    modifies out
    ensures out.text == old(out.text) + ContentSection(root, rootDir)
  {
    ghost var start := out.text;
    assert out.text == start + [];
    Append(out, "=== Project Files Content ===\n", start, []);
    DumpCodeContent(root, rootDir, out);
    AppendAssoc(start, ContentTitle, Dump(root, rootDir));
  }

  /** The tree section is the root line followed by one line per entry of
      the kept tree (none for an empty project), each drawn as `build_tree`
      promises. */
  lemma TreeSectionLines(root: Node, rootDir: string)
    requires Listable(root) && WellNamed(root)
    ensures DrawsAll(SplitLines(TreeText(root, "")), "", Outline(root, 0, []), 0, [])
    ensures TreeText(root, "") == "" <==> Retained(root.children) == []
  {
    TreeDrawsOutline(root, "", 0, []);
    EmptyDirectoryDrawsNothing(root, "");
  }

  /** The three tree sections describe the same kept tree: the drawing has
      one line per entry of the outline, the Markdown list one bullet per
      entry (apart from the empty lines after empty directories), and the
      JSON tree the same entries in the same nesting. */
  lemma TreeFormsAgree(root: Node, rootDir: string)
    requires Listable(root) && WellNamed(root)
    ensures DrawsAll(SplitLines(TreeText(root, "")), "", Outline(root, 0, []), 0, [])
    ensures MdText(root, 0) == JoinLines(FlatLines(root, 0))
    ensures Filter(NonEmpty, FlatLines(root, 0)) == Map(Bullet, Outline(root, 0, []))
    ensures JsonOutline(JsonOf(root, rootDir), 0, []) == Outline(root, 0, [])
  {
    TreeDrawsOutline(root, "", 0, []);
    MarkdownIsFlat(root, 0);
    FlatLinesAreBullets(root, 0, []);
    JsonMatchesOutline(root, rootDir, 0, []);
  }
}
