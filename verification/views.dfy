/** The two views git-meld-index shows side by side: the working-tree subset
    (`StageableWorkingTreeSubsetView`) and the index-or-HEAD view
    (`IndexOrHeadView`), the selector that picks one (`make_view`), and the
    strings the views build for git. */
module Views {
  import opened Wrappers
  import opened Text
  import opened Paths
  import opened CmdEnv
  import opened DiffRecords

  /** A view and the repository it reads, as `make_view` builds it. */
  datatype View =
    | WorkingTreeSubset(repoPath: string)   // StageableWorkingTreeSubsetView
    | IndexOrHead(repoPath: string)         // IndexOrHeadView

  /** The class attribute `label`: the name of the view's directory in the work area. */
  function Label(v: View): (l: string)
    ensures l != "" && '/' !in l
    ensures v.WorkingTreeSubset? <==> l == "working_tree"
  {
    if v.WorkingTreeSubset? then "working_tree" else "index"
  }

  /** `make_view(url_or_refspec)`: partition at the first colon; the scheme
      with its colon picks the view, and the rest (or "." when empty) is the
      repository path. */
  function MakeView(selector: string): Result<View, Error>
  {
    var parts := Partition(selector, ":");
    var dirPath := if parts.2 == "" then "." else parts.2;
    if parts.0 + parts.1 == "working:" then Success(WorkingTreeSubset(dirPath))
    else if parts.0 + parts.1 == "index:" then Success(IndexOrHead(dirPath))
    else Failure(UnknownURIScheme(parts.0))
  }

  /** The path a selector names after its scheme: "." when nothing follows. */
  function DirOrDot(rest: string): string
  {
    if rest == "" then "." else rest
  }

  /** `make_view` accepts exactly the selectors that start with "working:" or
      "index:", takes the rest of the selector (even one holding more colons)
      as the path, and otherwise reports the text before the first colon (all
      of it when there is none) as the unknown scheme. */
  lemma MakeViewSpec(selector: string)
    ensures "working:" <= selector ==>
      MakeView(selector) == Success(WorkingTreeSubset(DirOrDot(selector[8..])))
    ensures "index:" <= selector ==>
      MakeView(selector) == Success(IndexOrHead(DirOrDot(selector[6..])))
    ensures !("working:" <= selector) && !("index:" <= selector) ==>
      && MakeView(selector).Failure?
      && (':' !in selector ==> MakeView(selector).error == UnknownURIScheme(selector))
      && (':' in selector ==> MakeView(selector).error == UnknownURIScheme(selector[..IndexOf(selector, ':')]))
  {
    if "working:" <= selector {
      MakeViewAfterScheme(selector, "working");
    } else if "index:" <= selector {
      MakeViewAfterScheme(selector, "index");
    } else {
      MakeViewUnknown(selector);
    }
  }

  lemma MakeViewAfterScheme(selector: string, scheme: string)
    requires scheme in {"working", "index"} && scheme + ":" <= selector
    ensures Partition(selector, ":") == (scheme, ":", selector[|scheme| + 1..])
  {
    assert selector == scheme + [':'] + selector[|scheme| + 1..];
    PartitionAfter(scheme, ':', selector[|scheme| + 1..]);
  }

  lemma MakeViewUnknown(selector: string)
    requires !("working:" <= selector) && !("index:" <= selector)
    ensures MakeView(selector).Failure?
    ensures ':' !in selector ==> MakeView(selector).error == UnknownURIScheme(selector)
    ensures ':' in selector ==> MakeView(selector).error == UnknownURIScheme(selector[..IndexOf(selector, ':')])
  {
    PartitionChar(selector, ':');
    if ':' in selector {
      var k := IndexOf(selector, ':');
      assert selector[..k] + ":" == selector[..k + 1];
    } else {
      assert selector[..|selector|] == selector;
    }
  }

  /** The selector that names a view. */
  function Selector(v: View): string
  {
    (if v.WorkingTreeSubset? then "working:" else "index:") + v.repoPath
  }

  /** Every view with a non-empty path is named by its own selector. */
  lemma MakeViewOfSelector(v: View)
    requires v.repoPath != ""
    ensures MakeView(Selector(v)) == Success(v)
  {
    MakeViewSpec(Selector(v));
    if v.WorkingTreeSubset? {
      assert Selector(v)[8..] == v.repoPath;
    } else {
      assert "index:" <= Selector(v);
      assert Selector(v)[6..] == v.repoPath;
    }
  }

  /** `make_git_permission_string(is_link, is_executable)`. */
  function PermissionString(isLink: bool, isExecutable: bool): (p: string)
    ensures isLink ==> p == "120000"
    ensures !isLink ==> (p == "100755" <==> isExecutable)
    ensures p in {"120000", "100755", "100644"}
  {
    if isLink then "120000" else if isExecutable then "100755" else "100644"
  }

  /** What `check_out_head` does for a tree entry's mode. */
  datatype HeadAction = Submodule | Symlink | Blob(executable: bool)

  function HeadActionFor(mode: string): HeadAction
  {
    if mode == "160000" then Submodule
    else if mode == "120000" then Symlink
    else Blob(mode == "100755")
  }

  /** The mode `apply` stages is read back by `check_out_head` as the same
      kind of file: a link stays a link, whatever its executable bit, and a
      regular file keeps its executable bit. */
  lemma PermissionReadBack(isLink: bool, isExecutable: bool)
    ensures HeadActionFor(PermissionString(isLink, isExecutable))
         == (if isLink then Symlink else Blob(isExecutable))
  {
  }

  /** A path as `find .` prints it, without one leading "./". */
  function StripDotSlash(p: string): (r: string)
    ensures "./" <= p ==> "./" + r == p
    ensures !("./" <= p) ==> r == p
  {
    RemovePrefix(p, "./")
  }

  /** The stdin of `git update-index --index-info` for one file: permission,
      space, the hash-object output without its newline, tab, path. */
  function IndexInfoLine(permission: string, hashOutput: string, path: string): string
  {
    permission + " " + RemoveSuffix(hashOutput, "\n") + "\t" + path
  }

  /** git reads an index-info line as mode up to the first space, object
      name up to the next tab, and the path after it: each comes back as
      `apply` put it, whatever characters the path holds. */
  lemma IndexInfoLineFields(permission: string, hashOutput: string, path: string)
    requires ' ' !in permission && '\t' !in RemoveSuffix(hashOutput, "\n")
    ensures var line := IndexInfoLine(permission, hashOutput, path);
      var hash := RemoveSuffix(hashOutput, "\n");
      && Partition(line, " ") == (permission, " ", hash + "\t" + path)
      && Partition(hash + "\t" + path, "\t") == (hash, "\t", path)
  {
    var hash := RemoveSuffix(hashOutput, "\n");
    assert IndexInfoLine(permission, hashOutput, path) == permission + [' '] + (hash + "\t" + path);
    PartitionAfter(permission, ' ', hash + "\t" + path);
    PartitionAfter(hash, '\t', path);
  }

  /** How `check_out_head` reads `git ls-tree HEAD <path>` as written: split
      on spaces into exactly mode, type and the rest, then the rest on tabs
      into exactly object name and path; anything else is a ValueError. */
  function ParseLsTreeAsWritten(out: string): (r: Result<(string, string), Error>)
    ensures r.Success? <==> |Split(out, ' ')| == 3 && |Split(Split(out, ' ')[2], '\t')| == 2
    ensures r.Failure? ==> r.error.ValueError?
  {
    var fields := Split(out, ' ');
    if |fields| != 3 then Failure(ValueError(out))
    else
      var last := Split(fields[2], '\t');
      if |last| != 2 then Failure(ValueError(fields[2]))
      else Success((fields[0], last[0]))
  }

  /** The reading `check_out_head` evidently intends: the entry's metadata
      is everything before the first tab and splits on spaces into exactly
      mode, type and object name; the path after the tab is not split. A
      line without a tab, or whose metadata does not have three fields, is a
      ValueError. */
  function ParseLsTree(out: string): Result<(string, string), Error>
  {
    if '\t' !in out then Failure(ValueError(out))
    else
      var meta := Split(out[..IndexOf(out, '\t')], ' ');
      if |meta| != 3 then Failure(ValueError(out[..IndexOf(out, '\t')]))
      else Success((meta[0], meta[2]))
  }

  /** The line git prints for a tree entry: mode, type, object name, a tab, the path. */
  function LsTreeLine(mode: string, kind: string, hash: string, path: string): string
  {
    mode + " " + kind + " " + hash + "\t" + path
  }

  /** The metadata of an entry joined by spaces. */
  lemma LsTreeLineShape(mode: string, kind: string, hash: string, path: string)
    ensures LsTreeLine(mode, kind, hash, path) == mode + [' '] + (kind + [' '] + (hash + ['\t'] + path))
    ensures LsTreeLine(mode, kind, hash, path) == Join([mode, kind, hash], ' ') + ['\t'] + path
  {
    var fields := [mode, kind, hash];
    assert fields[1..] == [kind, hash];
    assert fields[1..][1..] == [hash];
    assert Join(fields[1..], ' ') == kind + [' '] + hash;
  }

  /** Every entry git prints is read back as its mode and object name,
      whatever its path holds. */
  lemma LsTreeRoundTrip(mode: string, kind: string, hash: string, path: string)
    requires ' ' !in mode && ' ' !in kind && ' ' !in hash
    requires '\t' !in mode && '\t' !in kind && '\t' !in hash
    ensures ParseLsTree(LsTreeLine(mode, kind, hash, path)) == Success((mode, hash))
  {
    var meta := Join([mode, kind, hash], ' ');
    var line := LsTreeLine(mode, kind, hash, path);
    assert '\t' in line && line[..IndexOf(line, '\t')] == meta by {
      LsTreeLineShape(mode, kind, hash, path);
      assert [mode, kind, hash][1..] == [kind, hash];
      assert [kind, hash][1..] == [hash];
      assert Join([hash], ' ') == hash;
      assert Join([kind, hash], ' ') == kind + [' '] + hash;
      assert meta == mode + [' '] + (kind + [' '] + hash);
      assert '\t' !in kind + [' '] + hash;
      assert '\t' !in meta;
      IndexOfAfter(meta, '\t', path);
      assert line == meta + ['\t'] + path;
      assert line[|meta|] == '\t';
    }
    SplitJoin([mode, kind, hash], ' ');
  }

  /** As written, an entry whose path holds no space or tab is read as intended. */
  lemma LsTreeAsWrittenAgrees(mode: string, kind: string, hash: string, path: string)
    requires ' ' !in mode && ' ' !in kind && ' ' !in hash && ' ' !in path
    requires '\t' !in hash && '\t' !in path
    ensures ParseLsTreeAsWritten(LsTreeLine(mode, kind, hash, path)) == Success((mode, hash))
  {
    var last := hash + ['\t'] + path;
    assert ' ' !in last by {
      assert forall c :: c in last ==> c in hash || c == '\t' || c in path;
    }
    LsTreeLineSpaces(mode, kind, hash, path, last);
    SplitAfter(hash, '\t', path);
  }

  /** The space-separated fields of an entry line when only the metadata holds spaces. */
  lemma LsTreeLineSpaces(mode: string, kind: string, hash: string, path: string, last: string)
    requires ' ' !in mode && ' ' !in kind && ' ' !in last && last == hash + ['\t'] + path
    ensures Split(LsTreeLine(mode, kind, hash, path), ' ') == [mode, kind, last]
  {
    LsTreeLineShape(mode, kind, hash, path);
    SplitAfter(mode, ' ', kind + [' '] + last);
    SplitAfter(kind, ' ', last);
  }

  /** As written, an entry whose path holds a space is rejected with a
      ValueError, although git prints such paths unquoted and the intended
      reading accepts them. */
  lemma LsTreeAsWrittenRejectsSpace(mode: string, kind: string, hash: string, p1: string, p2: string)
    requires ' ' !in mode && ' ' !in kind && ' ' !in hash && ' ' !in p1
    requires '\t' !in mode && '\t' !in kind && '\t' !in hash
    ensures ParseLsTreeAsWritten(LsTreeLine(mode, kind, hash, p1 + " " + p2)).Failure?
    ensures ParseLsTree(LsTreeLine(mode, kind, hash, p1 + " " + p2)) == Success((mode, hash))
  {
    var path := p1 + " " + p2;
    var first := hash + ['\t'] + p1;
    LsTreeLineShape(mode, kind, hash, path);
    assert hash + ['\t'] + path == first + [' '] + p2;
    assert ' ' !in first by {
      assert forall c :: c in first ==> c in hash || c == '\t' || c in p1;
    }
    SplitAfter(mode, ' ', kind + [' '] + (first + [' '] + p2));
    SplitAfter(kind, ' ', first + [' '] + p2);
    SplitAfter(first, ' ', p2);
    LsTreeRoundTrip(mode, kind, hash, path);
  }
}
