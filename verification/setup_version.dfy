/** `read_version` of setup.py: the package version is the value of the first
    line of the module that is not blank, a comment or a `__future__` import;
    that line must be the `__version__` assignment. The file is its lines
    (each with its newline, as iterating a file gives them) and
    `ast.literal_eval` is the parameter `eval`. */
module SetupVersion {
  import opened Wrappers
  import opened Text

  const VersionPrefix := "__version__ = "
  const FuturePrefix := "from __future__ import"

  /** What `read_version` can raise: its own `Exception`, or whatever
      `literal_eval` raises on the quoted text. */
  datatype Raised = Exception(message: string) | LiteralError(message: string)

  /** The exception raised when no version line is found. */
  function NotFound(path: string): Raised
  {
    Exception("Can't find __version__ line in " + path)
  }

  /** A line the scan passes over: blank or a comment once stripped, or a
      `__future__` import as it stands (not stripped). */
  predicate Skipped(line: string)
  {
    var stripped := Strip(line);
    stripped == "" || "#" <= stripped || FuturePrefix <= line
  }

  /** The index of the first line not passed over, if any. */
  function FirstKept(lines: seq<string>): (k: Option<nat>)
    ensures k.Some? ==> k.value < |lines| && !Skipped(lines[k.value])
                        && forall j :: 0 <= j < k.value ==> Skipped(lines[j])
    ensures k.None? ==> forall j :: 0 <= j < |lines| ==> Skipped(lines[j])
  {
    if lines == [] then None
    else if !Skipped(lines[0]) then Some(0)
    else
      match FirstKept(lines[1..])
      case None => None
      case Some(k) => Some(k + 1)
  }

  /** The text after the first `"= "` of the right-stripped line. */
  function Quoted(line: string): string
  {
    Partition(RStrip(line), "= ").2
  }

  /** What `read_version` returns or raises for a file with these lines. */
  function VersionOf<V>(path: string, lines: seq<string>, eval: string -> Result<V, Raised>): Result<V, Raised>
  {
    match FirstKept(lines)
    case None => Failure(NotFound(path))
    case Some(k) =>
      if VersionPrefix <= lines[k] then eval(Quoted(lines[k])) else Failure(NotFound(path))
  }

  /** The scan: skip, then stop at the first other line; raise unless it is
      the version assignment, and raise when the lines run out. */
  method ReadVersion<V>(path: string, lines: seq<string>, eval: string -> Result<V, Raised>) returns (r: Result<V, Raised>)
    ensures r == VersionOf(path, lines, eval)
  {
    var found := false;
    var line := "";
    for i := 0 to |lines|
      invariant forall j :: 0 <= j < i ==> Skipped(lines[j])
      invariant !found
    {
      line := lines[i];
      var stripped := Strip(line);
      if stripped == "" || "#" <= stripped {
        continue;
      } else if FuturePrefix <= line {
        continue;
      } else {
        if !(VersionPrefix <= line) {
          FirstKeptIs(lines, i);
          return Failure(NotFound(path));
        }
        FirstKeptIs(lines, i);
        found := true;
        break;
      }
    }
    if !found {
      FirstKeptNone(lines);
      return Failure(NotFound(path));
    }
    var (_, _, quoted) := Partition(RStrip(line), "= ");
    r := eval(quoted);
  }

  /** `FirstKept` finds the first line not passed over. */
  lemma {:induction false} FirstKeptIs(lines: seq<string>, i: nat)
    requires i < |lines| && !Skipped(lines[i])
    requires forall j :: 0 <= j < i ==> Skipped(lines[j])
    ensures FirstKept(lines) == Some(i)
    decreases i
  {
    if i > 0 {
      FirstKeptIs(lines[1..], i - 1);
    }
  }

  /** When every line is passed over there is no line to use. */
  lemma {:induction false} FirstKeptNone(lines: seq<string>)
    requires forall j :: 0 <= j < |lines| ==> Skipped(lines[j])
    ensures FirstKept(lines) == None
    decreases |lines|
  {
    if lines != [] {
      FirstKeptNone(lines[1..]);
    }
  }

  /** Blank lines, comments and `__future__` imports before the version line
      do not change the result. */
  lemma SkippedLinesIgnored<V>(path: string, skipped: seq<string>, lines: seq<string>, eval: string -> Result<V, Raised>)
    requires forall j :: 0 <= j < |skipped| ==> Skipped(skipped[j])
    ensures VersionOf(path, skipped + lines, eval) == VersionOf(path, lines, eval)
  {
    var all := skipped + lines;
    match FirstKept(lines)
    case None =>
      FirstKeptNone(all);
    case Some(k) =>
      assert all[|skipped| + k] == lines[k];
      FirstKeptIs(all, |skipped| + k);
  }

  /** No line after the first one kept is looked at. */
  lemma LaterLinesIgnored<V>(path: string, lines: seq<string>, more: seq<string>, eval: string -> Result<V, Raised>)
    requires FirstKept(lines).Some?
    ensures VersionOf(path, lines + more, eval) == VersionOf(path, lines, eval)
  {
    var k := FirstKept(lines).value;
    assert (lines + more)[k] == lines[k];
    FirstKeptIs(lines + more, k);
  }

  /** With no line to use (no lines at all, or only skipped ones) the scan
      raises; so it does when the first kept line is not the assignment. */
  lemma NotFoundCases<V>(path: string, lines: seq<string>, eval: string -> Result<V, Raised>)
    ensures (forall j :: 0 <= j < |lines| ==> Skipped(lines[j])) ==> VersionOf(path, lines, eval) == Failure(NotFound(path))
    ensures FirstKept(lines).Some? && !(VersionPrefix <= lines[FirstKept(lines).value])
            ==> VersionOf(path, lines, eval) == Failure(NotFound(path))
  {
    if forall j :: 0 <= j < |lines| ==> Skipped(lines[j]) {
      FirstKeptNone(lines);
    }
  }

  /** Trailing white space is what `rstrip` removes. */
  lemma {:induction false} RStripSpaces(a: string, tail: string)
    requires a != [] && !IsSpace(a[|a| - 1])
    requires forall i :: 0 <= i < |tail| ==> IsSpace(tail[i])
    ensures RStrip(a + tail) == a
    decreases |tail|
  {
    if tail == [] {
      assert a + tail == a;
    } else {
      var t := tail[..|tail| - 1];
      assert (a + tail)[..|a + tail| - 1] == a + t;
      RStripSpaces(a, t);
    }
  }

  /** The value handed to `literal_eval` is the text after `__version__ = `
      with the trailing white space (the newline) removed. */
  lemma QuotedValue(value: string, tail: string)
    requires value != [] && !IsSpace(value[|value| - 1])
    requires forall i :: 0 <= i < |tail| ==> IsSpace(tail[i])
    ensures Quoted(VersionPrefix + value + tail) == value
  {
    var s := VersionPrefix + value;
    assert s + tail == VersionPrefix + value + tail;
    RStripSpaces(s, tail);
    assert OccursAt(s, "= ", 12) by {
      assert s[12..14] == "= ";
    }
    forall j | 0 <= j < 12 ensures !OccursAt(s, "= ", j) {
      assert s[j] == VersionPrefix[j];
    }
    PartitionFirst(s, "= ", 12);
    assert s[14..] == value;
  }

  /** A comment line is passed over. */
  lemma CommentSkipped(line: string)
    requires line != "" && line[0] == '#'
    ensures Skipped(line)
  {
    assert LStrip(line) == line;
    RStripSpec(line);
  }

  /** The version assignment is never passed over. */
  lemma VersionLineKept(line: string)
    requires VersionPrefix <= line
    ensures !Skipped(line)
  {
    assert line[0] == '_';
    assert LStrip(line) == line;
    RStripSpec(line);
    assert !(FuturePrefix <= line) by {
      assert FuturePrefix[0] != line[0];
    }
  }

  /** The layout of git_meld_index.py's header is accepted: two comment
      lines, then the assignment of `"0.0.0"`, whatever follows it. */
  lemma HeaderAccepted<V>(path: string, comment1: string, comment2: string, rest: seq<string>, eval: string -> Result<V, Raised>)
    requires comment1 != "" && comment1[0] == '#'
    requires comment2 != "" && comment2[0] == '#'
    ensures VersionOf(path, [comment1, comment2, "__version__ = \"0.0.0\"\n"] + rest, eval) == eval("\"0.0.0\"")
  {
    var v := "__version__ = \"0.0.0\"\n";
    CommentSkipped(comment1);
    CommentSkipped(comment2);
    assert v == VersionPrefix + "\"0.0.0\"" + "\n";
    VersionLineKept(v);
    var lines := [comment1, comment2, v] + rest;
    FirstKeptIs(lines, 2);
    QuotedValue("\"0.0.0\"", "\n");
  }
}
