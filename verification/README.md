# dump_project.py, modelled in Dafny

`StudentAPI/dump_project.py` writes one text report about a project directory:

1. an ASCII drawing of the directory tree in the style of `tree`;
2. the same tree as a nested Markdown bullet list;
3. the same tree as nested JSON folder/file records;
4. the text of every "interesting" source file, one section per directory.

Three name filters decide what appears:
- directories named like build output or version-control data are skipped;
- binary and temporary files are skipped;
- a fixed list of source extensions marks the files whose text is dumped.

The model replaces the file system with a value, `FsTree.Node`:
- a directory has its entries in enumeration order and a `readable` flag, which is false when listing it raises;
- a regular file has a read outcome: the decoded text, or the failure that reading raised;
- an entry that is neither (a socket, a device, a dangling link) is a `Special`.

On that tree, each part of the script becomes a function that defines its result, plus code in the script's own shape:
- the three renderers are recursive methods with the script's loops, proved equal to functions;
- the content dump is a method over an output stream (`Output.OutputFile`) that keeps `os.walk`'s explicit stack;
- `dump_project` writes the four sections to a fresh stream in order.

What the proofs say:
- The three tree forms list exactly the same entries in the same pre-order, each with its depth, kind, last-sibling flag and the last-sibling flags of the directories above it. This common form is `FsTree.Outline`.
- Each directory lists its kept entries stably sorted by lower-cased name.
- The ASCII drawing has one line per entry, with the exact guides and connector `build_tree` gives it.
- The Markdown list has one bullet per entry.
- The content walk skips ignored and unreadable directories, visits every other directory and names each one correctly.
- The report's sections come in the fixed order.

Modules follow the script's parts:

| module | file | models |
|---|---|---|
| `Strings`, `Lines`, `Paths`, `Seqs` | strings.dfy, lines.dfy, paths.dfy, seqs.dfy | `str.lower`, `startswith`/`endswith`, string order, `"\n".join`, `splitlines`, `os.path.join`/`basename`, list comprehensions |
| `Filters` | filters.dfy | `should_ignore_dir`, `should_ignore_file`, `is_interesting_file` |
| `FsTree` | fstree.dfy | the directory tree, the sorted selection of entries, the outline |
| `AsciiTree`, `MarkdownTree`, `JsonTree` | ascii_tree.dfy, markdown_tree.dfy, json_tree.dfy | `build_tree`, `build_markdown_tree`, `build_json_structure` |
| `ContentDump` | content_dump.dfy | `dump_code_content` and the `os.walk` it drives |
| `Output`, `Report` | output.dfy, report.dfy | the output file, `dump_project` |
| `Scenario` | scenario.dfy | a small example project worked through the model |

Two behaviours of the script are kept as written:
- The three tree forms sort each listing, but the content dump does not: it writes directories and files in `os.walk`'s listing order (dump_project.py:93,102). `ContentDump.Walk` keeps that order.
- In the Markdown list, an empty retained subdirectory adds one empty line after its bullet. The nested result is appended to the lines without being split (dump_project.py:69); see `MarkdownTree.FlatLines` and `MarkdownTree.MarkdownIsFlat`.

## Model

| member | source | states |
|---|---|---|
| Strings.Lower | StudentAPI/dump_project.py:20 | lower-casing keeps the length and lower-cases every character (ASCII letters) |
| Strings.LowerIdempotent | StudentAPI/dump_project.py:20 | lower-casing a lower-cased name changes nothing |
| Strings.LessIrreflexive | StudentAPI/dump_project.py:37 | Python's string order never puts a key before itself |
| Strings.LessTransitive | StudentAPI/dump_project.py:37 | the string order used as sort key is transitive |
| Strings.LessTotal | StudentAPI/dump_project.py:37 | any two distinct keys are ordered one way or the other |
| Strings.LessAsymmetric | StudentAPI/dump_project.py:37 | two keys are never each below the other |
| Filters.IgnoreDirExactly | StudentAPI/dump_project.py:7-13 | a directory is skipped if and only if its name is one of bin, obj, node_modules, packages, dist, logs, `__pycache__`, or starts with "." (the four dotted names of the set are covered by the dot rule) |
| Filters.IgnoreDirIsCaseSensitive | StudentAPI/dump_project.py:13 | "bin"/"obj" are skipped but "Bin"/"OBJ" are not |
| Filters.FileTestsIgnoreCase | StudentAPI/dump_project.py:15-30 | two names with the same lower case get the same answer from both file filters |
| Filters.FileTestsOfLowered | StudentAPI/dump_project.py:15-30 | both file filters answer the same for a name and for its lower-cased form |
| Filters.FileFiltersDisjoint | StudentAPI/dump_project.py:15-30 | no file name is both ignored and interesting |
| Filters.IgnoredTails | StudentAPI/dump_project.py:17-19 | every ignored extension ends in one of six two-letter endings |
| Filters.InterestingTails | StudentAPI/dump_project.py:26-29 | every interesting extension ends in one of nine two-letter endings, none shared with the ignored ones |
| Filters.TailsDiffer | StudentAPI/dump_project.py:20 | a name cannot end with two extensions whose last two letters differ |
| Filters.SkipTestIsNotInteresting | StudentAPI/dump_project.py:103 | the two-part skip test of the content dump is the same as "not interesting" |
| Lines.LineEnd | StudentAPI/dump_project.py:49 | the first line boundary: everything before it is ordinary text |
| Lines.SplitJoin | StudentAPI/dump_project.py:49-52 | `splitlines` undoes `"\n".join` when no line is empty or holds a boundary |
| Lines.JoinAppend | StudentAPI/dump_project.py:52 | joining two non-empty lists of lines is joining each and putting a newline between them |
| Lines.JoinStartsWithFirst | StudentAPI/dump_project.py:52 | the joined text starts with the first line |
| Lines.NoBreakAppend | StudentAPI/dump_project.py:47 | concatenating text without line boundaries gives text without line boundaries |
| Paths.BasenameIsLastComponent | StudentAPI/dump_project.py:76 | `basename` is the slash-free end of the path, preceded by "/" unless it is the whole path |
| Paths.BasenameOfJoin | StudentAPI/dump_project.py:76 | a folder record reached by `entry.path` is named after the entry: the basename of a joined name is the name |
| Paths.JoinNonEmpty | StudentAPI/dump_project.py:96-98 | a path with a name joined on is never empty |
| FsTree.SortPermutes | StudentAPI/dump_project.py:37 | sorting neither loses nor adds entries (same multiset) |
| FsTree.SortSorted | StudentAPI/dump_project.py:37 | the sorted listing is ordered by lower-cased name |
| FsTree.SortStable | StudentAPI/dump_project.py:37 | sorting keeps entries with equal lower-cased names in enumeration order |
| FsTree.InsertPermutes | StudentAPI/dump_project.py:37 | one insertion step adds exactly the inserted entry |
| FsTree.InsertSorted | StudentAPI/dump_project.py:37 | inserting into an ordered listing keeps it ordered |
| FsTree.Retained | StudentAPI/dump_project.py:37-41 | every listed entry is one of the directory's entries |
| FsTree.ScanEntries | StudentAPI/dump_project.py:35-41 | the selection loop keeps, in sorted order, the directories and regular files whose names are not ignored |
| FsTree.RetainedIsStableSortedSelection | StudentAPI/dump_project.py:37-41 | a renderer's listing is ordered by lower-cased name, and for every name it holds exactly the kept entries with that name, in enumeration order |
| FsTree.FilterKeepsSorted | StudentAPI/dump_project.py:38-41 | dropping ignored entries keeps the listing ordered |
| AsciiTree.BuildTree | StudentAPI/dump_project.py:33-52 | `build_tree` returns the drawing of the kept tree, `TreeText` |
| AsciiTree.DrawEntry | StudentAPI/dump_project.py:44-51 | one pass of the drawing loop yields the entry's line and, below a directory, the split lines of its own drawing with the extended prefix |
| AsciiTree.TreeDrawsOutline | StudentAPI/dump_project.py:43-52 | the drawing has exactly one line per entry of the kept subtree, in pre-order; each line is the caller's prefix, then one guide per directory between the drawn directory and the entry, top-most first ("    " below a last sibling, "│   " below any other), then "└── " for a last sibling and "├── " otherwise, then the name with "/" after a directory's; splitting the drawing gives its lines back |
| AsciiTree.EntryDraws | StudentAPI/dump_project.py:45-51 | a file draws as one line; a directory as its line followed by its own drawing, every line of which starts with the prefix and the directory's guide ("    " when it is the last sibling, "│   " otherwise) |
| AsciiTree.Guide | StudentAPI/dump_project.py:48-49 | each ancestor adds one four-character guide |
| AsciiTree.DrawsShift | StudentAPI/dump_project.py:48-49 | a line drawn under a subdirectory's extended prefix draws the same entry under the parent's prefix, the extension being the subdirectory's guide |
| AsciiTree.DrawnBelow | StudentAPI/dump_project.py:48-50 | every line drawn with a prefix starts with it |
| AsciiTree.HeadDraws | StudentAPI/dump_project.py:45-51 | an entry's own line is a proper line that draws it |
| AsciiTree.DrawsAllAppend | StudentAPI/dump_project.py:44-51 | drawings of consecutive entries concatenate |
| AsciiTree.DrawsAllShift | StudentAPI/dump_project.py:48-49 | a subdirectory's drawing with the extended prefix draws its entries one level deeper under the parent's prefix |
| AsciiTree.EmptyDirectoryDrawsNothing | StudentAPI/dump_project.py:52 | the drawing is the empty string if and only if the directory lists nothing |
| MarkdownTree.BuildMarkdownTree | StudentAPI/dump_project.py:54-72 | `build_markdown_tree` returns the nested list, `MdText` |
| MarkdownTree.ListEntry | StudentAPI/dump_project.py:65-71 | one pass of the loop yields the entry's bullet at two spaces per level and, after a directory's, its nested list unsplit |
| MarkdownTree.MarkdownIsFlat | StudentAPI/dump_project.py:65-72 | the nested joins give the text of one flat list: one bullet per entry in pre-order, plus one empty line right after the bullet of each empty directory |
| MarkdownTree.FlatLinesAreBullets | StudentAPI/dump_project.py:66-71 | apart from those empty lines, the list is exactly the bullets of the kept tree in pre-order: `- **name/**` for a directory and `- name` for a file, indented two spaces per level |
| MarkdownTree.FlatEntryAreBullets | StudentAPI/dump_project.py:66-71 | the lines of one entry are its bullet, then the bullets below it |
| MarkdownTree.EmptyDirectoryListsNothing | StudentAPI/dump_project.py:72 | the list is empty if and only if the directory lists nothing |
| JsonTree.BuildJsonStructure | StudentAPI/dump_project.py:74-88 | `build_json_structure` returns the folder record `JsonOf`: named after the path's last component, with the listed entries as children, or none when listing fails |
| JsonTree.DescribeChildren | StudentAPI/dump_project.py:78-85 | the loop over the sorted listing gives one record per kept entry, in order |
| JsonTree.DescribeEntry | StudentAPI/dump_project.py:81-84 | a kept directory is described recursively from its own path, a kept file by its name, anything else not at all |
| JsonTree.ChildrenOfShape | StudentAPI/dump_project.py:79-85 | there is one child record per listed entry, the k-th describing the k-th |
| JsonTree.JsonMatchesOutline | StudentAPI/dump_project.py:74-88 | the JSON records hold the same entries, names, kinds and nesting as the other two forms; a directory that cannot be listed is an empty folder and its siblings are unaffected |
| JsonTree.OutlinesAgree | StudentAPI/dump_project.py:79-85 | children that match entry by entry make the whole folder match |
| ContentDump.Walk | StudentAPI/dump_project.py:93 | every directory the walk yields is a directory |
| ContentDump.FilesAreNotDirs | StudentAPI/dump_project.py:93 | `filenames` holds no directory |
| ContentDump.DumpCodeContent | StudentAPI/dump_project.py:91-112 | the method, with the walk's explicit stack, appends exactly `Dump`: for each directory the walk yields, its header and then the sections of its files |
| ContentDump.PushSubdirs | StudentAPI/dump_project.py:93-95 | pushing the pruned subdirectories in reverse makes the first one walked next, and the remaining walks come in listing order |
| ContentDump.PendingPop | StudentAPI/dump_project.py:93 | popping a directory leaves its walk as the next visits |
| ContentDump.VisitStep | StudentAPI/dump_project.py:93-100 | a readable directory's walk is its own visit followed by the walks of its descended subdirectories |
| ContentDump.WalkBody | StudentAPI/dump_project.py:95-112 | one walk step prunes `dirnames` to the names that are not ignored, then writes the folder header and one section per file |
| ContentDump.WriteFileSection | StudentAPI/dump_project.py:102-112 | an ignored or uninteresting file writes nothing; any other writes its header, then its text and a newline, or the error marker |
| ContentDump.TextAppend | StudentAPI/dump_project.py:93-112 | the text of consecutive visits concatenates |
| ContentDump.PrunedIsDescended | StudentAPI/dump_project.py:95 | pruning `dirnames` in place leaves exactly the non-ignored subdirectories, in listing order |
| ContentDump.RelPathEmpty | StudentAPI/dump_project.py:96-98 | the relative path is empty if and only if the directory is the root |
| ContentDump.FolderHeaders | StudentAPI/dump_project.py:96-100 | the header shows `root_dir` for the root and the relative path for every other visited directory |
| ContentDump.WalkVisitsOk | StudentAPI/dump_project.py:93-95 | ignored directories and everything below them are never visited, nor are unreadable ones; each visited directory is reached by the path its names spell |
| ContentDump.WalkNamesProper | StudentAPI/dump_project.py:96-98 | below the root, every visited directory has a non-empty list of proper names leading to it |
| ContentDump.WalkAllContains | StudentAPI/dump_project.py:93 | a subdirectory's walk is part of its parent's walk |
| ContentDump.WalkCovers | StudentAPI/dump_project.py:93-95 | nothing is skipped: every readable, non-ignored subdirectory of a visited directory is visited too, by its own path |
| ContentDump.FileSectionShown | StudentAPI/dump_project.py:103-104 | a file gets a section if and only if it is interesting |
| Output.OutputFile.constructor | StudentAPI/dump_project.py:116 | the output file starts empty (opened with "w") |
| Output.OutputFile.Write | StudentAPI/dump_project.py:118-137 | a write appends its text |
| Report.DumpProject | StudentAPI/dump_project.py:115-137 | the report file holds exactly the four sections, in order |
| Report.WriteTreeSection | StudentAPI/dump_project.py:118-121 | the tree section is its title, `root_dir + "/"`, the drawing, then a blank line |
| Report.WriteMarkdownSection | StudentAPI/dump_project.py:124-127 | the Markdown section is its title, `# Project Structure`, the list, then a blank line |
| Report.WriteJsonSection | StudentAPI/dump_project.py:130-133 | the JSON section is its title, the serialised records of `JsonOf`, then a blank line |
| Report.WriteContentSection | StudentAPI/dump_project.py:136-137 | the content section is its title followed by the whole content dump |
| Report.Append | StudentAPI/dump_project.py:118-137 | writing to the stream extends the section written so far |
| Report.TreeSectionLines | StudentAPI/dump_project.py:118-121 | the tree section shows one drawn line per kept entry, and no lines for a project with nothing to list |
| Report.TreeFormsAgree | StudentAPI/dump_project.py:33-88 | the drawing, the Markdown bullets and the JSON records all describe the same outline of the kept tree |
| Scenario.ExampleOutline | StudentAPI/dump_project.py:37-41 | for a project holding `src/a.cs`, `bin/`, `.git/` and `README.md`, the tree forms list `README.md`, then `src/` with `a.cs`, whatever `bin/` and `.git/` contain |
| Scenario.ListingOf | StudentAPI/dump_project.py:37-41 | the sorted selection of those four entries is `README.md`, `src` |
| Scenario.ExampleWalk | StudentAPI/dump_project.py:93-95 | the content dump of that project visits the root and `src/` only |
| Scenario.ExampleFilesShown | StudentAPI/dump_project.py:102-110 | `README.md` and `a.cs` each get a header followed by their text or the error marker |

## Left out

- File system access (`os.scandir`, `os.walk`, `open`, `os.getcwd`) is replaced by the `Node` value. A directory's listing and a file's read outcome are fixed in the tree, so the file system cannot change during a run.
- `DirEntry.is_dir()`/`is_file()` are read as the entry's kind. Symbolic links, and `os.walk`'s refusal to follow them, are not modelled; a dangling link or device is a `Special`.
- UTF-8 decoding with replacement and the text of exception messages: a read is the oracle `ReadOutcome`.
- Strings.Lower: folds only the ASCII letters A–Z, not the rest of Unicode `str.lower`.
- AsciiTree.BuildTree: requires every listed directory to be readable. The script lets `PermissionError` escape from `build_tree`, which aborts the whole run.
- MarkdownTree.BuildMarkdownTree: requires every listed directory to be readable, for the same reason.
- Report.DumpProject: requires a readable root with readable listed directories, as the first two sections do. It takes `json.dumps(..., indent=2, ensure_ascii=False)` as a parameter, because the serialiser's text is not modelled. The output file is a fresh empty stream; opening and encoding it are not modelled.
- JsonTree.BuildJsonStructure: every listing failure counts as the `PermissionError` the script catches. Other `OSError`s, which would propagate, are not distinguished.
- AsciiTree.TreeDrawsOutline: requires names free of line boundaries and "/" (`WellNamed`). A name holding a line break would be split into several lines by `splitlines`.
- ContentDump.RelPath: `os.path.relpath` is modelled as the directory names joined below the root, without path normalisation (`..`, repeated or trailing slashes in `root_dir`).
- The order of files within a directory in the content dump is the enumeration order. No sorting is claimed there.
- The `__main__` block, `OUTPUT_FILE`, `os.getcwd()` and the final `print` are not modelled.
