/** `build_json_structure`: the kept tree as nested dictionaries, before
    `json.dumps` turns it into text. */
module JsonTree {
  import opened Seqs
  import opened Paths
  import opened Filters
  import opened FsTree

  /** `{"name": ..., "type": "folder", "children": [...]}` or
      `{"name": ..., "type": "file"}`. */
  datatype JNode = Folder(name: string, children: seq<JNode>) | FileRecord(name: string)

  datatype Option<T> = None | Some(value: T)

  /** `build_json_structure(path)` for the directory `d` found at `path`: a
      folder named by the last component of `path`, whose children are the
      listed entries, or none when listing raises `PermissionError`. */
  function JsonOf(d: Node, path: string): JNode
    requires d.Dir?
    decreases d, 1
  {
    Folder(Basename(path), if d.readable then ChildrenOf(d, path) else [])
  }

  /** The descriptions of the listed entries of `d`, in listing order. */
  function ChildrenOf(d: Node, path: string): seq<JNode>
    requires d.Dir?
    decreases d, 0
  {
    var entries := Retained(d.children);
    seq(|entries|, k requires 0 <= k < |entries| =>
      assert entries[k] in d.children; ChildJson(entries[k], path))
  }

  /** A subdirectory is described recursively from its own path
      (`entry.path`, the directory's path joined with the entry's name); a
      file by its name. */
  function ChildJson(e: Node, path: string): JNode
    decreases e, 2
  {
    if e.Dir? then JsonOf(e, Join(path, e.name)) else FileRecord(e.name)
  }

  /** `build_json_structure`: a folder for the path, with the children
      described by one pass over the sorted listing; a listing that raises
      `PermissionError` leaves the children empty. */
  method BuildJsonStructure(d: Node, path: string) returns (structure: JNode)
    requires d.Dir?
    ensures structure == JsonOf(d, path)
    decreases d, 1
  {
    var children: seq<JNode> := [];
    if d.readable {
      children := DescribeChildren(d, path);
    }
    structure := Folder(Basename(path), children);
  }

  /** The `for entry in entries` loop of `build_json_structure`: one
      description per kept entry, in listing order. */
  method DescribeChildren(d: Node, path: string) returns (entries: seq<JNode>)
    requires d.Dir?
    ensures entries == ChildrenOf(d, path)
    decreases d, 0
  {
    var sorted := SortByName(d.children);
    entries := [];
    ghost var kept: seq<Node> := [];
    var i := 0;
    Start(d, path, sorted);
    while i < |sorted|
      invariant 0 <= i <= |sorted|
      invariant Described(d, path, sorted, i, kept, entries)
    {
      var entry := sorted[i];
      SortedEntry(d.children, i);
      var described := DescribeEntry(entry, path);
      if described.Some? {
        Advance(d, path, sorted, i, kept, entries, described.value);
        entries := entries + [described.value];
        kept := kept + [entry];
      } else {
        Skip(d, path, sorted, i, kept, entries);
      }
      i := i + 1;
    }
    Finish(d, path, sorted, kept, entries);
  }

  /** The body of the loop for one sorted entry: a directory that is not
      ignored is described recursively from `entry.path`, a file that is not
      ignored by its name; anything else is passed over. */
  method DescribeEntry(e: Node, path: string) returns (described: Option<JNode>)
    ensures described == if Kept(e) then Some(ChildJson(e, path)) else None
    decreases e, 2
  {
    if e.Dir? && !ShouldIgnoreDir(e.name) {
      var sub := BuildJsonStructure(e, Join(path, e.name));
      described := Some(sub);
    } else if e.File? && !ShouldIgnoreFile(e.name) {
      described := Some(FileRecord(e.name));
    } else {
      described := None;
    }
  }

  /** The loop's state after the first `i` sorted entries: `kept` are the
      kept ones among them, and `entries` describes them one by one. */
  predicate Described(d: Node, path: string, sorted: seq<Node>, i: nat, kept: seq<Node>, entries: seq<JNode>)
    requires d.Dir? && i <= |sorted|
  {
    kept + Filter(Kept, sorted[i..]) == Retained(d.children) &&
    |entries| == |kept| &&
    forall k :: 0 <= k < |kept| ==> entries[k] == ChildJson(kept[k], path)
  }

  lemma Start(d: Node, path: string, sorted: seq<Node>)
    requires d.Dir? && sorted == SortByName(d.children)
    ensures Described(d, path, sorted, 0, [], [])
  {
    assert sorted[0..] == sorted;
  }

  /** A kept entry is appended with its description. */
  lemma Advance(d: Node, path: string, sorted: seq<Node>, i: nat, kept: seq<Node>, entries: seq<JNode>, j: JNode)
    requires d.Dir? && i < |sorted| && Described(d, path, sorted, i, kept, entries)
    requires Kept(sorted[i]) && j == ChildJson(sorted[i], path)
    ensures Described(d, path, sorted, i + 1, kept + [sorted[i]], entries + [j])
  {
    FilterStep(sorted, i, kept);
  }

  /** An entry that is not kept changes nothing. */
  lemma Skip(d: Node, path: string, sorted: seq<Node>, i: nat, kept: seq<Node>, entries: seq<JNode>)
    requires d.Dir? && i < |sorted| && Described(d, path, sorted, i, kept, entries)
    requires !Kept(sorted[i])
    ensures Described(d, path, sorted, i + 1, kept, entries)
  {
    FilterStep(sorted, i, kept);
  }

  /** After the whole sorted listing, the descriptions are `ChildrenOf`. */
  lemma Finish(d: Node, path: string, sorted: seq<Node>, kept: seq<Node>, entries: seq<JNode>)
    requires d.Dir? && Described(d, path, sorted, |sorted|, kept, entries)
    ensures entries == ChildrenOf(d, path)
  {
    assert sorted[|sorted|..] == [];
    assert kept == Retained(d.children);
    ChildrenOfShape(d, path);
  }

  /** There is one description per listed entry, the `k`-th describing the
      `k`-th. */
  lemma ChildrenOfShape(d: Node, path: string)
    requires d.Dir?
    ensures |ChildrenOf(d, path)| == |Retained(d.children)|
    ensures forall k :: 0 <= k < |Retained(d.children)| ==>
      ChildrenOf(d, path)[k] == ChildJson(Retained(d.children)[k], path)
  {
  }

  /** The entries of a JSON tree in pre-order, children of the top folder at
      `depth` with ancestors `above`, each with its name, kind and whether it
      is the last child. */
  function JsonOutline(j: JNode, depth: nat, above: seq<bool>): seq<Entry>
    decreases j, 1
  {
    if j.FileRecord? then [] else JsonOutlineUpTo(j, |j.children|, depth, above)
  }

  function JsonOutlineUpTo(j: JNode, n: nat, depth: nat, above: seq<bool>): seq<Entry>
    requires j.Folder? && n <= |j.children|
    decreases j, 0, n
  {
    if n == 0 then []
    else
      JsonOutlineUpTo(j, n - 1, depth, above) + JsonEntryOutline(j.children[n - 1], n == |j.children|, depth, above)
  }

  function JsonEntryOutline(c: JNode, last: bool, depth: nat, above: seq<bool>): seq<Entry>
    decreases c, 2
  {
    [Entry(depth, c.name, c.Folder?, last, above)] + if c.Folder? then JsonOutline(c, depth + 1, above + [last]) else []
  }

  /** The JSON tree holds the same entries, in the same order and nesting,
      as the other two tree forms: every folder is named after the entry it
      describes, and an unreadable directory is an empty folder. */
  lemma {:induction false} JsonMatchesOutline(d: Node, path: string, depth: nat, above: seq<bool>)
    requires d.Dir? && WellNamed(d)
    ensures JsonOutline(JsonOf(d, path), depth, above) == Outline(d, depth, above)
    decreases d, 1
  {
    if d.readable {
      var j := JsonOf(d, path);
      var entries := Retained(d.children);
      ChildrenOfShape(d, path);
      forall k | 0 <= k < |entries|
        ensures JsonEntryOutline(j.children[k], k + 1 == |j.children|, depth, above)
             == EntryOutline(entries[k], k + 1 == |j.children|, depth, above)
      {
        assert entries[k] in d.children;
        ChildMatches(entries[k], path, k + 1 == |j.children|, depth, above);
      }
      OutlinesAgree(j, d, |entries|, depth, above);
    }
  }

  /** A folder whose children outline, one by one, as the listed entries of
      `d` do, outlines as `d` does. */
  lemma {:induction false} OutlinesAgree(j: JNode, d: Node, n: nat, depth: nat, above: seq<bool>)
    requires j.Folder? && d.Dir? && |j.children| == |Retained(d.children)| && n <= |j.children|
    requires forall k :: 0 <= k < n ==>
      JsonEntryOutline(j.children[k], k + 1 == |j.children|, depth, above)
        == EntryOutline(Retained(d.children)[k], k + 1 == |j.children|, depth, above)
    ensures JsonOutlineUpTo(j, n, depth, above) == OutlineUpTo(d, n, depth, above)
  {
    if n > 0 {
      JsonStep(j, n, depth, above);
      OutlineStep(d, n - 1, depth, above);
      OutlinesAgree(j, d, n - 1, depth, above);
    }
  }

  lemma JsonStep(j: JNode, n: nat, depth: nat, above: seq<bool>)
    requires j.Folder? && 0 < n <= |j.children|
    ensures JsonOutlineUpTo(j, n, depth, above) ==
      JsonOutlineUpTo(j, n - 1, depth, above) + JsonEntryOutline(j.children[n - 1], n == |j.children|, depth, above)
  {
  }

  lemma {:induction false} ChildMatches(e: Node, path: string, last: bool, depth: nat, above: seq<bool>)
    requires ProperName(e.name) && WellNamed(e)
    ensures JsonEntryOutline(ChildJson(e, path), last, depth, above) == EntryOutline(e, last, depth, above)
    decreases e, 2
  {
    if e.Dir? {
      BasenameOfJoin(path, e.name);
      JsonMatchesOutline(e, Join(path, e.name), depth + 1, above + [last]);
    }
  }
}
