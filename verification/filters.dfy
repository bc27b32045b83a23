/** The fixed ignore rules of dump_project.py: which directories are skipped,
    which files are skipped, and which files have their text dumped. */
module Filters {
  import opened Strings

  /** Directory names that are always skipped (matched case-sensitively). */
  const IgnoredDirNames: set<string> :=
    {"bin", "obj", ".vs", "node_modules", ".git", ".idea", ".vscode",
     "packages", "dist", "logs", "__pycache__"}

  /** Extensions of binary, log and temporary files. */
  const IgnoredExtensions: set<string> :=
    {".dll", ".exe", ".pdb", ".log", ".tmp", ".cache"}

  /** Extensions of source, markup, configuration and project files. */
  const InterestingExtensions: set<string> :=
    {".cs", ".cshtml", ".json", ".js", ".css", ".xml",
     ".config", ".csproj", ".sln", ".md"}

  /** `s.endswith(tuple(exts))`. */
  predicate EndsWithAny(s: string, exts: set<string>) {
    exists e :: e in exts && EndsWith(s, e)
  }

  predicate ShouldIgnoreDir(dirname: string) {
    dirname in IgnoredDirNames || StartsWith(dirname, ".")
  }

  predicate ShouldIgnoreFile(filename: string) {
    EndsWithAny(Lower(filename), IgnoredExtensions)
  }

  predicate IsInterestingFile(filename: string) {
    EndsWithAny(Lower(filename), InterestingExtensions)
  }

  /** The four dotted names of the ignore set are already covered by the
      leading-dot rule: a directory is skipped exactly when its name is one of
      seven plain names or starts with ".". */
  lemma IgnoreDirExactly(dirname: string)
    ensures ShouldIgnoreDir(dirname) <==>
      dirname in {"bin", "obj", "node_modules", "packages", "dist", "logs", "__pycache__"}
      || (|dirname| > 0 && dirname[0] == '.')
  {
    if dirname in {".vs", ".git", ".idea", ".vscode"} {
      assert dirname[..1] == ".";
    }
    if |dirname| > 0 && dirname[0] == '.' {
      assert dirname[..1] == ".";
    }
  }

  /** The directory test does not fold case. */
  lemma IgnoreDirIsCaseSensitive()
    ensures ShouldIgnoreDir("bin") && !ShouldIgnoreDir("Bin")
    ensures ShouldIgnoreDir("obj") && !ShouldIgnoreDir("OBJ")
  {
    assert "Bin"[..1][0] == 'B';
    assert "OBJ"[..1][0] == 'O';
  }

  /** The two file tests look only at the lower-cased name. */
  lemma FileTestsIgnoreCase(a: string, b: string)
    requires Lower(a) == Lower(b)
    ensures ShouldIgnoreFile(a) == ShouldIgnoreFile(b)
    ensures IsInterestingFile(a) == IsInterestingFile(b)
  {
  }

  lemma FileTestsOfLowered(filename: string)
    ensures ShouldIgnoreFile(Lower(filename)) == ShouldIgnoreFile(filename)
    ensures IsInterestingFile(Lower(filename)) == IsInterestingFile(filename)
  {
    LowerIdempotent(filename);
  }

  /** The last two characters of an extension. */
  function Tail2(e: string): string
    requires |e| >= 2
  {
    e[|e| - 2..]
  }

  /** No name is both ignored and interesting: if a name ended with an ignored
      and an interesting extension, the two would share their last two
      characters, and no pair of the fixed extensions does. */
  lemma FileFiltersDisjoint(filename: string)
    ensures !(ShouldIgnoreFile(filename) && IsInterestingFile(filename))
  {
    var l := Lower(filename);
    if ShouldIgnoreFile(filename) {
      var e1 :| e1 in IgnoredExtensions && EndsWith(l, e1);
      IgnoredTails(e1);
      forall e2 | e2 in InterestingExtensions ensures !EndsWith(l, e2) {
        InterestingTails(e2);
        TailsDiffer(l, e1, e2);
      }
    }
  }

  /** A string ending with `e1` cannot end with an `e2` whose last two
      characters differ. */
  lemma TailsDiffer(l: string, e1: string, e2: string)
    requires EndsWith(l, e1) && |e1| >= 2 && |e2| >= 2 && Tail2(e1) != Tail2(e2)
    ensures !EndsWith(l, e2)
  {
    assert Tail2(e1) == l[|l| - 2..];
  }

  lemma IgnoredTails(e: string)
    requires e in IgnoredExtensions
    ensures |e| >= 2 && Tail2(e) in {"ll", "xe", "db", "og", "mp", "he"}
  {
  }

  lemma InterestingTails(e: string)
    requires e in InterestingExtensions
    ensures |e| >= 2 && Tail2(e) in {"cs", "ml", "on", "js", "ss", "ig", "oj", "ln", "md"}
    ensures forall i :: i in IgnoredExtensions ==> |i| >= 2 && Tail2(i) != Tail2(e)
  {
    var t := Tail2(e);
    assert t in {"cs", "ml", "on", "js", "ss", "ig", "oj", "ln", "md"};
    forall i | i in IgnoredExtensions ensures |i| >= 2 && Tail2(i) != t {
      IgnoredTails(i);
    }
  }

  /** The skip test of the content dumper,
      `should_ignore_file(f) or not is_interesting_file(f)`,
      is the same as `not is_interesting_file(f)`. */
  lemma SkipTestIsNotInteresting(filename: string)
    ensures (ShouldIgnoreFile(filename) || !IsInterestingFile(filename)) <==> !IsInterestingFile(filename)
  {
    FileFiltersDisjoint(filename);
  }
}
