/** `list_tree`: a directory tree rendered as text, one line per entry,
    files before directories, each group sorted by name. The file system is
    a tree of entries; the skip regular expression is a predicate on names. */
module ListTree {
  import opened Text

  /** What a directory entry is: a symlink (whatever it points at), a
      directory that is not a symlink, or anything else. */
  datatype Kind = Regular | Symlink(target: string) | Directory(entries: seq<Entry>)

  /** One name in a directory listing and what it names. */
  datatype Entry = Entry(name: string, kind: Kind)

  /** The four indent strings: for every entry but the last, and for the
      last one, each as the entry's own prefix and as its subtree's prefix. */
  datatype Style = Style(indent: string, branchIndent: string, lastIndent: string, lastBranchIndent: string)

  /** The default indents of `ls_tree`. */
  const DefaultStyle := Style("|-- ", "|   ", "`-- ", "    ")

  /** An entry is listed as a directory only when it is a directory and not a
      symlink. */
  predicate IsDir(e: Entry)
  {
    e.kind.Directory?
  }

  // ---------------------------------------------------------------------
  // The default skip pattern, as `re.match` applies it (anchored at the
  // start of the name only; `.` does not match a newline).

  /** `.*` followed by `sub` matches at the start of `s`. */
  predicate AfterAnyInLine(s: string, sub: string)
  {
    exists j :: 0 <= j <= |s| && OccursAt(s, sub, j) && '\n' !in s[..j]
  }

  /** `[^.]+\.py[co]` matches at the start of `s`: the text before the first
      dot is not empty and the dot starts `.pyc` or `.pyo`. */
  predicate CompiledPython(s: string)
  {
    '.' in s && 0 < IndexOf(s, '.') && (OccursAt(s, ".pyc", IndexOf(s, '.')) || OccursAt(s, ".pyo", IndexOf(s, '.')))
  }

  /** `re.match(skip_pattern, name)` for the default pattern. */
  predicate DefaultSkip(name: string)
  {
    ".svn" <= name
    || CompiledPython(name)
    || AfterAnyInLine(name, "~")
    || AfterAnyInLine(name, "$py.class")
    || "__pycache__" <= name
  }

  /** A compiled module is skipped; so is an editor backup. */
  lemma DefaultSkipsCompiled(stem: string, ext: string, rest: string)
    requires stem != "" && '.' !in stem && (ext == ".pyc" || ext == ".pyo")
    ensures DefaultSkip(stem + ext + rest)
    ensures '\n' !in stem ==> DefaultSkip(stem + "~" + rest)
  {
    var s := stem + ext + rest;
    assert s == stem + ['.'] + (ext[1..] + rest);
    IndexOfAfter(stem, '.', ext[1..] + rest);
    assert s[|stem|..|stem| + 4] == ext;
    if '\n' !in stem {
      var t := stem + "~" + rest;
      assert t[..|stem|] == stem && t[|stem|..|stem| + 1] == "~";
      assert OccursAt(t, "~", |stem|);
    }
  }

  // ---------------------------------------------------------------------
  // `names.sort()`: Python orders strings by code point, a proper prefix first.

  predicate NameLe(a: string, b: string)
    decreases |a|
  {
    if a == [] then true
    else if b == [] then false
    else if a[0] != b[0] then a[0] < b[0]
    else NameLe(a[1..], b[1..])
  }

  lemma {:induction false} NameLeTotal(a: string, b: string)
    ensures NameLe(a, b) || NameLe(b, a)
    decreases |a|
  {
    if a != [] && b != [] && a[0] == b[0] {
      NameLeTotal(a[1..], b[1..]);
    }
  }

  lemma {:induction false} NameLeTrans(a: string, b: string, c: string)
    requires NameLe(a, b) && NameLe(b, c)
    ensures NameLe(a, c)
    decreases |a|
  {
    if a != [] && b != [] && c != [] && a[0] == b[0] && b[0] == c[0] {
      NameLeTrans(a[1..], b[1..], c[1..]);
    }
  }

  /** Entries in ascending order of name. */
  predicate Sorted(s: seq<Entry>)
  {
    forall i, j :: 0 <= i < j < |s| ==> NameLe(s[i].name, s[j].name)
  }

  /** `e` placed before the first entry whose name is not below its own. */
  function Insert(e: Entry, s: seq<Entry>): (r: seq<Entry>)
    ensures multiset(r) == multiset(s) + multiset{e}
    ensures |r| == |s| + 1
  {
    if s == [] || NameLe(e.name, s[0].name) then [e] + s
    else
      assert s == [s[0]] + s[1..];
      [s[0]] + Insert(e, s[1..])
  }

  lemma {:induction false} InsertSorted(e: Entry, s: seq<Entry>)
    requires Sorted(s)
    ensures Sorted(Insert(e, s))
    decreases |s|
  {
    var r := Insert(e, s);
    if s == [] || NameLe(e.name, s[0].name) {
      forall i, j | 0 <= i < j < |r| ensures NameLe(r[i].name, r[j].name) {
        if i == 0 {
          if j > 1 {
            NameLeTrans(e.name, s[0].name, s[j - 1].name);
          }
        }
      }
    } else {
      NameLeTotal(e.name, s[0].name);
      InsertSorted(e, s[1..]);
      var rest := Insert(e, s[1..]);
      assert r == [s[0]] + rest;
      forall j | 0 <= j < |rest| ensures NameLe(s[0].name, rest[j].name) {
        assert rest[j] in multiset(rest);
        if rest[j] != e {
          assert rest[j] in multiset(s[1..]);
          var k :| 0 <= k < |s[1..]| && s[1..][k] == rest[j];
          assert s[k + 1] == rest[j];
        }
      }
    }
  }

  /** `names.sort()`: the entries in ascending order of name. */
  function SortByName(s: seq<Entry>): (r: seq<Entry>)
    ensures multiset(r) == multiset(s)
    ensures Sorted(r)
  {
    if s == [] then []
    else
      var rest := SortByName(s[1..]);
      InsertSorted(s[0], rest);
      assert s == [s[0]] + s[1..];
      Insert(s[0], rest)
  }

  // ---------------------------------------------------------------------
  // The partition loop: skipped names are dropped, the rest go to `dirs`
  // or `nondirs` in order.

  /** The names of `s` that are listed and are directories, in order. */
  function Dirs(s: seq<Entry>, skip: string -> bool): seq<Entry>
  {
    if s == [] then []
    else Dirs(s[..|s| - 1], skip)
         + (if !skip(s[|s| - 1].name) && IsDir(s[|s| - 1]) then [s[|s| - 1]] else [])
  }

  /** The names of `s` that are listed and are not directories, in order. */
  function NonDirs(s: seq<Entry>, skip: string -> bool): seq<Entry>
  {
    if s == [] then []
    else NonDirs(s[..|s| - 1], skip)
         + (if !skip(s[|s| - 1].name) && !IsDir(s[|s| - 1]) then [s[|s| - 1]] else [])
  }

  /** The loop over the sorted names. */
  method Partition(names: seq<Entry>, skip: string -> bool) returns (dirs: seq<Entry>, nondirs: seq<Entry>)
    ensures dirs == Dirs(names, skip) && nondirs == NonDirs(names, skip)
  {
    dirs, nondirs := [], [];
    for i := 0 to |names|
      invariant dirs == Dirs(names[..i], skip) && nondirs == NonDirs(names[..i], skip)
    {
      assert names[..i + 1][..i] == names[..i];
      var name := names[i];
      if skip(name.name) {
        continue;
      }
      if IsDir(name) {
        dirs := dirs + [name];
      } else {
        nondirs := nondirs + [name];
      }
    }
    assert names[..|names|] == names;
  }

  /** Each group keeps exactly the listed entries of its kind, in the
      order they came in. */
  lemma GroupsSpec(s: seq<Entry>, skip: string -> bool)
    ensures forall x :: x in Dirs(s, skip) <==> x in s && !skip(x.name) && IsDir(x)
    ensures forall x :: x in NonDirs(s, skip) <==> x in s && !skip(x.name) && !IsDir(x)
    ensures Sorted(s) ==> Sorted(Dirs(s, skip)) && Sorted(NonDirs(s, skip))
  {
    DirsMembers(s, skip);
    NonDirsMembers(s, skip);
    if Sorted(s) {
      GroupsSorted(s, skip);
    }
  }

  /** The directories kept are the listed directories of `s`. */
  lemma {:induction false} DirsMembers(s: seq<Entry>, skip: string -> bool)
    ensures forall x :: x in Dirs(s, skip) <==> x in s && !skip(x.name) && IsDir(x)
    decreases |s|
  {
    if s != [] {
      var init := s[..|s| - 1];
      DirsMembers(init, skip);
      assert s == init + [s[|s| - 1]];
    }
  }

  /** The other entries kept are the listed non-directories of `s`. */
  lemma {:induction false} NonDirsMembers(s: seq<Entry>, skip: string -> bool)
    ensures forall x :: x in NonDirs(s, skip) <==> x in s && !skip(x.name) && !IsDir(x)
    decreases |s|
  {
    if s != [] {
      var init := s[..|s| - 1];
      NonDirsMembers(init, skip);
      assert s == init + [s[|s| - 1]];
    }
  }

  /** Both groups of a sorted list are sorted. */
  lemma {:induction false} GroupsSorted(s: seq<Entry>, skip: string -> bool)
    requires Sorted(s)
    ensures Sorted(Dirs(s, skip)) && Sorted(NonDirs(s, skip))
    decreases |s|
  {
    if s != [] {
      var init := s[..|s| - 1];
      assert Sorted(init);
      GroupsSorted(init, skip);
      DirsMembers(init, skip);
      NonDirsMembers(init, skip);
      SortedAppend(Dirs(init, skip), s, s[|s| - 1]);
      SortedAppend(NonDirs(init, skip), s, s[|s| - 1]);
    }
  }

  /** Appending the last entry of a sorted list to a sorted selection of the
      entries before it keeps the selection sorted. */
  lemma SortedAppend(g: seq<Entry>, s: seq<Entry>, last: Entry)
    requires s != [] && last == s[|s| - 1] && Sorted(s) && Sorted(g)
    requires forall x :: x in g ==> x in s[..|s| - 1]
    ensures Sorted(g + [last])
  {
    var r := g + [last];
    forall i, j | 0 <= i < j < |r| ensures NameLe(r[i].name, r[j].name) {
      if j == |g| {
        assert r[i] == g[i] && g[i] in g;
        assert r[i] in s[..|s| - 1];
        var k :| 0 <= k < |s| - 1 && s[..|s| - 1][k] == r[i];
        assert s[k] == r[i];
      }
    }
  }

  /** `entries`: the non-directories first, then the directories, each group
      sorted; a skipped name is left out, and so is everything under it. */
  function Ordered(es: seq<Entry>, skip: string -> bool): (r: seq<Entry>)
    ensures forall x :: x in r <==> x in es && !skip(x.name)
  {
    var s := SortByName(es);
    GroupsSpec(s, skip);
    assert forall x :: x in s <==> x in multiset(s);
    NonDirs(s, skip) + Dirs(s, skip)
  }

  /** Non-directories come before directories, and each group is in order
      of name. */
  lemma OrderedSpec(es: seq<Entry>, skip: string -> bool)
    ensures var r := Ordered(es, skip);
      && (forall i, j :: 0 <= i < j < |r| && IsDir(r[i]) ==> IsDir(r[j]))
      && (forall i, j :: 0 <= i < j < |r| && IsDir(r[i]) == IsDir(r[j]) ==> NameLe(r[i].name, r[j].name))
  {
    var s := SortByName(es);
    GroupsSpec(s, skip);
    GroupsInOrder(NonDirs(s, skip), Dirs(s, skip));
  }

  /** Sorted non-directories followed by sorted directories. */
  lemma GroupsInOrder(n: seq<Entry>, d: seq<Entry>)
    requires forall x :: x in n ==> !IsDir(x)
    requires forall x :: x in d ==> IsDir(x)
    requires Sorted(n) && Sorted(d)
    ensures var r := n + d;
      && (forall i, j :: 0 <= i < j < |r| && IsDir(r[i]) ==> IsDir(r[j]))
      && (forall i, j :: 0 <= i < j < |r| && IsDir(r[i]) == IsDir(r[j]) ==> NameLe(r[i].name, r[j].name))
  {
    var r := n + d;
    forall k | 0 <= k < |r| ensures IsDir(r[k]) <==> k >= |n| {
      if k < |n| {
        assert r[k] == n[k];
      } else {
        assert r[k] == d[k - |n|];
      }
    }
    forall i, j | 0 <= i < j < |r| && IsDir(r[i]) == IsDir(r[j]) ensures NameLe(r[i].name, r[j].name) {
      if j < |n| {
        assert r[i] == n[i] && r[j] == n[j];
      } else if i >= |n| {
        assert r[i] == d[i - |n|] && r[j] == d[j - |n|];
      }
    }
  }

  // ---------------------------------------------------------------------
  // Rendering.

  /** Every line prefixed with `prefix`. */
  function Indented(prefix: string, lines: seq<string>): (r: seq<string>)
    ensures |r| == |lines|
    ensures forall i :: 0 <= i < |lines| ==> r[i] == prefix + lines[i]
  {
    if lines == [] then [] else [prefix + lines[0]] + Indented(prefix, lines[1..])
  }

  /** `ls_entry(name, is_dir, ind, branch_ind)`. */
  function EntryLines(e: Entry, skip: string -> bool, style: Style, ind: string, branchInd: string): seq<string>
    decreases e, 2, 0
  {
    match e.kind
    case Directory(_) => [ind + e.name + "/"] + Indented(branchInd, DirLines(e, skip, style))
    case Symlink(target) => [ind + e.name + " -> " + target]
    case Regular => [ind + e.name]
  }

  /** An entry's first line is the indent and its name, with "/" for a
      directory and " -> target" for a symlink (even one to a directory);
      only a directory has more lines, and they are its own listing with the
      branch indent in front of every line. */
  lemma EntryLinesShape(e: Entry, skip: string -> bool, style: Style, ind: string, branchInd: string)
    ensures var lines := EntryLines(e, skip, style, ind, branchInd);
      && lines != []
      && lines[0] == ind + e.name + (if IsDir(e) then "/" else if e.kind.Symlink? then " -> " + e.kind.target else "")
      && (!IsDir(e) ==> |lines| == 1)
      && (IsDir(e) ==>
            var sub := DirLines(e, skip, style);
            |lines| == 1 + |sub| && forall i :: 0 <= i < |sub| ==> lines[i + 1] == branchInd + sub[i])
  {
  }

  /** `_ls_tree_lines(dir)`: the lines of a directory's listing. */
  function DirLines(d: Entry, skip: string -> bool, style: Style): seq<string>
    requires IsDir(d)
    decreases d, 1, 0
  {
    RenderEntries(d, Ordered(d.kind.entries, skip), skip, style)
  }

  /** Every entry but the last with `indent`, the last with `last_indent`. */
  function RenderEntries(d: Entry, es: seq<Entry>, skip: string -> bool, style: Style): seq<string>
    requires IsDir(d) && forall x :: x in es ==> x in d.kind.entries
    decreases d, 0, |es|
  {
    if es == [] then []
    else
      assert es[0] in es;
      if |es| == 1 then EntryLines(es[0], skip, style, style.lastIndent, style.lastBranchIndent)
    else EntryLines(es[0], skip, style, style.indent, style.branchIndent) + RenderEntries(d, es[1..], skip, style)
  }

  /** The lines of `ls_tree(dir)` for a directory holding `root`. */
  function TreeLines(root: seq<Entry>, skip: string -> bool, style: Style): seq<string>
  {
    DirLines(Entry("", Directory(root)), skip, style)
  }

  /** `ls_tree(dir)`: the lines joined by newlines, plus one final newline. */
  function LsTree(root: seq<Entry>, skip: string -> bool, style: Style): string
  {
    Join(TreeLines(root, skip, style), '\n') + "\n"
  }

  // ---------------------------------------------------------------------
  // Properties of the rendering.

  /** The lines an entry accounts for: itself, and when it is a directory,
      the listed entries beneath it. */
  function Reach(e: Entry, skip: string -> bool): nat
    decreases e
  {
    1 + (if e.kind.Directory? then ReachAll(e.kind.entries, skip) else 0)
  }

  /** The entries of `es` not skipped, and those reachable beneath them
      through directories that are not symlinks. */
  function ReachAll(es: seq<Entry>, skip: string -> bool): nat
    decreases es
  {
    if es == [] then 0
    else (if skip(es[0].name) then 0 else Reach(es[0], skip)) + ReachAll(es[1..], skip)
  }

  lemma {:induction false} ReachAllAppend(a: seq<Entry>, b: seq<Entry>, skip: string -> bool)
    ensures ReachAll(a + b, skip) == ReachAll(a, skip) + ReachAll(b, skip)
    decreases |a|
  {
    if a == [] {
      assert a + b == b;
    } else {
      assert (a + b)[1..] == a[1..] + b;
      ReachAllAppend(a[1..], b, skip);
    }
  }

  lemma {:induction false} ReachAllInsert(e: Entry, s: seq<Entry>, skip: string -> bool)
    ensures ReachAll(Insert(e, s), skip) == ReachAll([e], skip) + ReachAll(s, skip)
    decreases |s|
  {
    if s != [] && !NameLe(e.name, s[0].name) {
      ReachAllInsert(e, s[1..], skip);
      assert [s[0]] + Insert(e, s[1..]) == Insert(e, s);
      assert ([s[0]] + Insert(e, s[1..]))[1..] == Insert(e, s[1..]);
    } else {
      ReachAllAppend([e], s, skip);
    }
  }

  /** Sorting does not change what is reachable. */
  lemma {:induction false} ReachAllSorted(s: seq<Entry>, skip: string -> bool)
    ensures ReachAll(SortByName(s), skip) == ReachAll(s, skip)
    decreases |s|
  {
    if s != [] {
      ReachAllSorted(s[1..], skip);
      ReachAllInsert(s[0], SortByName(s[1..]), skip);
      ReachAllAppend([s[0]], s[1..], skip);
      assert [s[0]] + s[1..] == s;
    }
  }

  /** Partitioning does not change what is reachable. */
  lemma {:induction false} ReachAllGroups(s: seq<Entry>, skip: string -> bool)
    ensures ReachAll(NonDirs(s, skip), skip) + ReachAll(Dirs(s, skip), skip) == ReachAll(s, skip)
    decreases |s|
  {
    if s != [] {
      var init, last := s[..|s| - 1], s[|s| - 1];
      ReachAllGroups(init, skip);
      assert s == init + [last];
      ReachAllAppend(init, [last], skip);
      var dl := if !skip(last.name) && IsDir(last) then [last] else [];
      var nl := if !skip(last.name) && !IsDir(last) then [last] else [];
      ReachAllAppend(Dirs(init, skip), dl, skip);
      ReachAllAppend(NonDirs(init, skip), nl, skip);
    }
  }

  lemma OrderedReach(es: seq<Entry>, skip: string -> bool)
    ensures ReachAll(Ordered(es, skip), skip) == ReachAll(es, skip)
  {
    var s := SortByName(es);
    ReachAllAppend(NonDirs(s, skip), Dirs(s, skip), skip);
    ReachAllGroups(s, skip);
    ReachAllSorted(es, skip);
  }

  /** One line per entry listed: an entry's lines are its own and those of
      the entries reachable beneath it. */
  lemma {:induction false} EntryLineCount(e: Entry, skip: string -> bool, style: Style, ind: string, branchInd: string)
    ensures |EntryLines(e, skip, style, ind, branchInd)| == Reach(e, skip)
    decreases e, 2, 0
  {
    if e.kind.Directory? {
      DirLineCount(e, skip, style);
    }
  }

  /** A directory's listing has one line per entry listed beneath it: the
      entries not skipped, and below them through non-symlink directories. */
  lemma {:induction false} DirLineCount(d: Entry, skip: string -> bool, style: Style)
    requires IsDir(d)
    ensures |DirLines(d, skip, style)| == ReachAll(d.kind.entries, skip)
    decreases d, 1, 0
  {
    var es := Ordered(d.kind.entries, skip);
    RenderLineCount(d, es, skip, style);
    OrderedReach(d.kind.entries, skip);
  }

  lemma {:induction false} RenderLineCount(d: Entry, es: seq<Entry>, skip: string -> bool, style: Style)
    requires IsDir(d) && forall x :: x in es ==> x in d.kind.entries && !skip(x.name)
    ensures |RenderEntries(d, es, skip, style)| == ReachAll(es, skip)
    decreases d, 0, |es|
  {
    if es != [] {
      assert es[0] in es;
      if |es| == 1 {
        EntryLineCount(es[0], skip, style, style.lastIndent, style.lastBranchIndent);
      } else {
        EntryLineCount(es[0], skip, style, style.indent, style.branchIndent);
        RenderLineCount(d, es[1..], skip, style);
      }
    }
  }

  /** An empty directory, or one whose names are all skipped, contributes
      no lines. */
  lemma EmptyDirNoLines(d: Entry, skip: string -> bool, style: Style)
    requires IsDir(d) && forall x :: x in d.kind.entries ==> skip(x.name)
    ensures DirLines(d, skip, style) == []
  {
    DirLineCount(d, skip, style);
    ReachAllSkipped(d.kind.entries, skip);
  }

  lemma {:induction false} ReachAllSkipped(es: seq<Entry>, skip: string -> bool)
    requires forall x :: x in es ==> skip(x.name)
    ensures ReachAll(es, skip) == 0
    decreases |es|
  {
    if es != [] {
      assert es[0] in es;
      ReachAllSkipped(es[1..], skip);
    }
  }

  /** The last entry of a directory is drawn with the last-entry indents,
      every other one with the plain indents. */
  lemma {:induction false} RenderIndents(d: Entry, es: seq<Entry>, skip: string -> bool, style: Style)
    requires IsDir(d) && forall x :: x in es ==> x in d.kind.entries
    requires es != []
    ensures var lines := RenderEntries(d, es, skip, style);
      var first := EntryLines(es[0], skip, style, style.indent, style.branchIndent);
      var last := EntryLines(es[|es| - 1], skip, style, style.lastIndent, style.lastBranchIndent);
      && (|es| == 1 ==> lines == last)
      && (|es| > 1 ==> first <= lines && EndsWithLines(lines, last))
    decreases |es|
  {
    if |es| > 2 {
      RenderIndents(d, es[1..], skip, style);
    }
  }

  /** `lines` ends with the lines `tail`. */
  predicate EndsWithLines(lines: seq<string>, tail: seq<string>)
  {
    |tail| <= |lines| && lines[|lines| - |tail|..] == tail
  }

  // ---------------------------------------------------------------------
  // The text: splitting it on newlines gives the lines back.

  /** No newline in any name, link target or indent. */
  predicate OneLine(e: Entry)
    decreases e
  {
    && '\n' !in e.name
    && (e.kind.Symlink? ==> '\n' !in e.kind.target)
    && (e.kind.Directory? ==> forall x :: x in e.kind.entries ==> OneLine(x))
  }

  predicate StyleOneLine(style: Style)
  {
    '\n' !in style.indent && '\n' !in style.branchIndent && '\n' !in style.lastIndent && '\n' !in style.lastBranchIndent
  }

  lemma {:induction false} EntryNoNewline(e: Entry, skip: string -> bool, style: Style, ind: string, branchInd: string)
    requires OneLine(e) && StyleOneLine(style) && '\n' !in ind && '\n' !in branchInd
    ensures forall line :: line in EntryLines(e, skip, style, ind, branchInd) ==> '\n' !in line
    decreases e, 2, 0
  {
    if e.kind.Directory? {
      DirNoNewline(e, skip, style);
    }
  }

  lemma {:induction false} DirNoNewline(d: Entry, skip: string -> bool, style: Style)
    requires IsDir(d) && OneLine(d) && StyleOneLine(style)
    ensures forall line :: line in DirLines(d, skip, style) ==> '\n' !in line
    decreases d, 1, 0
  {
    RenderNoNewline(d, Ordered(d.kind.entries, skip), skip, style);
  }

  lemma {:induction false} RenderNoNewline(d: Entry, es: seq<Entry>, skip: string -> bool, style: Style)
    requires IsDir(d) && OneLine(d) && StyleOneLine(style)
    requires forall x :: x in es ==> x in d.kind.entries
    ensures forall line :: line in RenderEntries(d, es, skip, style) ==> '\n' !in line
    decreases d, 0, |es|
  {
    if es != [] {
      assert es[0] in es;
      if |es| == 1 {
        EntryNoNewline(es[0], skip, style, style.lastIndent, style.lastBranchIndent);
      } else {
        EntryNoNewline(es[0], skip, style, style.indent, style.branchIndent);
        RenderNoNewline(d, es[1..], skip, style);
      }
    }
  }

  /** Joining non-empty lines and adding a newline terminates every line. */
  lemma {:induction false} JoinThenNewline(lines: seq<string>)
    requires lines != []
    ensures Join(lines, '\n') + "\n" == Terminated(lines, '\n')
    decreases |lines|
  {
    assert lines + [""] == [lines[0]] + (lines[1..] + [""]);
    assert Join(lines + [""], '\n') == lines[0] + ['\n'] + Join(lines[1..] + [""], '\n');
    if |lines| > 1 {
      JoinThenNewline(lines[1..]);
      assert Join(lines, '\n') == lines[0] + ['\n'] + Join(lines[1..], '\n');
    }
  }

  /** Newline-free lines, joined and terminated, split back into the lines
      and an empty last field. */
  lemma LinesText(lines: seq<string>)
    requires lines != [] && forall i :: 0 <= i < |lines| ==> '\n' !in lines[i]
    ensures Split(Join(lines, '\n') + "\n", '\n') == lines + [""]
  {
    JoinThenNewline(lines);
    TerminatedFields(lines, '\n');
    var parts := Split(Terminated(lines, '\n'), '\n');
    LastSplitOff(parts);
  }

  /** A non-empty sequence is its front followed by its last element. */
  lemma LastSplitOff<T>(s: seq<T>)
    requires s != []
    ensures s == s[..|s| - 1] + [s[|s| - 1]]
  {
  }

  /** `ls_tree` ends every line with a newline: an empty tree is a lone
      newline, and otherwise splitting the text on newlines gives back the
      lines and an empty last field. */
  lemma LsTreeText(root: seq<Entry>, skip: string -> bool, style: Style)
    requires forall x :: x in root ==> OneLine(x)
    requires StyleOneLine(style)
    ensures var lines := TreeLines(root, skip, style);
      && (lines == [] ==> LsTree(root, skip, style) == "\n")
      && (lines != [] ==> Split(LsTree(root, skip, style), '\n') == lines + [""])
  {
    var lines := TreeLines(root, skip, style);
    if lines != [] {
      DirNoNewline(Entry("", Directory(root)), skip, style);
      assert forall i :: 0 <= i < |lines| ==> '\n' !in lines[i] by {
        forall i | 0 <= i < |lines| ensures '\n' !in lines[i] {
          assert lines[i] in lines;
        }
      }
      LinesText(lines);
    }
  }

  /** An empty directory lists as a lone newline. */
  lemma LsTreeEmpty(skip: string -> bool, style: Style)
    ensures LsTree([], skip, style) == "\n"
  {
    EmptyDirNoLines(Entry("", Directory([])), skip, style);
  }
}
