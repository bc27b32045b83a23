/** `"\n".join(lines)` and `str.splitlines()`, and when one undoes the other. */
module Lines {

  /** The line boundaries `str.splitlines` recognises. */
  predicate IsLineBreak(c: char) {
    c == '\n' || c == '\r' || c == '\U{B}' || c == '\U{C}' || c == '\U{1C}' || c == '\U{1D}'
    || c == '\U{1E}' || c == '\U{85}' || c == '\U{2028}' || c == '\U{2029}'
  }

  predicate NoBreak(s: string) {
    forall i :: 0 <= i < |s| ==> !IsLineBreak(s[i])
  }

  /** A line that survives a join followed by a split unchanged. */
  predicate LineOk(s: string) {
    s != "" && NoBreak(s)
  }

  lemma NoBreakAppend(a: string, b: string)
    requires NoBreak(a) && NoBreak(b)
    ensures NoBreak(a + b)
  {
    forall i | 0 <= i < |a + b| ensures !IsLineBreak((a + b)[i]) {
      if i >= |a| {
        assert (a + b)[i] == b[i - |a|];
      }
    }
  }

  /** `"\n".join(ls)`. */
  function JoinLines(ls: seq<string>): string {
    if ls == [] then ""
    else if |ls| == 1 then ls[0]
    else ls[0] + "\n" + JoinLines(ls[1..])
  }

  lemma {:induction false} JoinAppend(a: seq<string>, b: seq<string>)
    requires a != [] && b != []
    ensures JoinLines(a + b) == JoinLines(a) + "\n" + JoinLines(b)
  {
    assert (a + b)[0] == a[0];
    if |a| == 1 {
      assert (a + b)[1..] == b;
    } else {
      assert (a + b)[1..] == a[1..] + b;
      JoinAppend(a[1..], b);
    }
  }

  /** The joined text starts with the first line. */
  lemma {:induction false} JoinStartsWithFirst(ls: seq<string>)
    requires ls != []
    ensures |JoinLines(ls)| >= |ls[0]| && JoinLines(ls)[..|ls[0]|] == ls[0]
  {
  }

  /** Index of the first line boundary in `s`, or `|s|` when there is none. */
  function LineEnd(s: string): (k: nat)
    ensures k <= |s|
    ensures forall i :: 0 <= i < k ==> !IsLineBreak(s[i])
    ensures k < |s| ==> IsLineBreak(s[k])
  {
    if s == [] || IsLineBreak(s[0]) then 0 else 1 + LineEnd(s[1..])
  }

  /** `str.splitlines()`: "\r\n" is one boundary, a trailing boundary does not
      start a new line, and the empty string has no lines. */
  function SplitLines(s: string): seq<string>
    decreases |s|
  {
    if s == [] then []
    else
      var k := LineEnd(s);
      if k == |s| then [s]
      else
        var width := if s[k] == '\r' && k + 1 < |s| && s[k + 1] == '\n' then 2 else 1;
        [s[..k]] + SplitLines(s[k + width..])
  }

  /** Splitting a join gives the lines back when no line is empty or holds a
      boundary of its own. */
  lemma {:induction false} SplitJoin(ls: seq<string>)
    requires forall k :: 0 <= k < |ls| ==> LineOk(ls[k])
    ensures SplitLines(JoinLines(ls)) == ls
  {
    if |ls| == 1 {
      assert LineEnd(ls[0]) == |ls[0]|;
    } else if |ls| > 1 {
      var l := ls[0];
      var rest := JoinLines(ls[1..]);
      var s := l + "\n" + rest;
      assert JoinLines(ls) == s;
      assert s[|l|] == '\n';
      assert forall i :: 0 <= i < |l| ==> s[i] == l[i];
      assert LineEnd(s) == |l|;
      assert s[..|l|] == l;
      assert s[|l| + 1..] == rest;
      JoinStartsWithFirst(ls[1..]);
      SplitJoin(ls[1..]);
    }
  }
}
