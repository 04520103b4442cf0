/** The POSIX path helpers the views use: `os.path.join` for two arguments,
    `os.path.dirname`, and the view module's own `ensure_trailing_slash`. */
module Paths {
  import opened Text

  /** `ensure_trailing_slash`: append "/" unless the path already ends with one. */
  function EnsureTrailingSlash(path: string): (r: string)
    ensures EndsWith(r, "/")
    ensures path <= r && |r| <= |path| + 1
    ensures EndsWith(path, "/") ==> r == path
  {
    if EndsWith(path, "/") then path else path + "/"
  }

  /** Applying it twice is the same as applying it once. */
  lemma EnsureTrailingSlashIdempotent(path: string)
    ensures EnsureTrailingSlash(EnsureTrailingSlash(path)) == EnsureTrailingSlash(path)
  {
  }

  /** `os.path.join(a, b)`: an absolute `b` replaces `a`; otherwise `b` is
      appended after exactly one separator (none after an empty `a`). */
  function PathJoin(a: string, b: string): (r: string)
    ensures EndsWith(r, b)
    ensures "/" <= b ==> r == b
    ensures !("/" <= b) ==> r == (if a == "" then b else EnsureTrailingSlash(a) + b)
  {
    if "/" <= b then b
    else if a == "" || EndsWith(a, "/") then a + b
    else a + "/" + b
  }

  /** Length of `p` up to and including its last "/" (0 when there is none). */
  function LastSepEnd(p: string): (i: nat)
    ensures i <= |p|
    ensures i > 0 ==> p[i - 1] == '/'
    decreases |p|
  {
    if p == "" then 0
    else if p[|p| - 1] == '/' then |p|
    else LastSepEnd(p[..|p| - 1])
  }

  /** No "/" follows the cut. */
  lemma {:induction false} LastSepEndIsLast(p: string)
    ensures '/' !in p[LastSepEnd(p)..]
    decreases |p|
  {
    if p != "" && p[|p| - 1] != '/' {
      var q := p[..|p| - 1];
      LastSepEndIsLast(q);
      assert p[LastSepEnd(p)..] == q[LastSepEnd(q)..] + [p[|p| - 1]];
    }
  }

  /** `s.rstrip("/")`. */
  function RStripSlashes(s: string): (r: string)
    ensures r <= s
    ensures r == "" || r[|r| - 1] != '/'
    decreases |s|
  {
    if s != "" && s[|s| - 1] == '/' then RStripSlashes(s[..|s| - 1]) else s
  }

  /** Only slashes are removed. */
  lemma {:induction false} RStripSlashesRemovesSlashes(s: string)
    ensures forall i :: |RStripSlashes(s)| <= i < |s| ==> s[i] == '/'
    decreases |s|
  {
    if s != "" && s[|s| - 1] == '/' {
      RStripSlashesRemovesSlashes(s[..|s| - 1]);
    }
  }

  /** `os.path.dirname(p)`: everything before the last "/", with the trailing
      slashes removed unless the head is made of slashes only (which is when
      removing them would leave nothing). */
  function DirName(p: string): (d: string)
    ensures d <= p
  {
    var head := p[..LastSepEnd(p)];
    var stripped := RStripSlashes(head);
    if stripped != "" then stripped else head
  }

  /** A path without "/" has no directory part; the directory part ends in
      "/" only when it is made of slashes (the root); whatever follows it up
      to the last "/" is slashes, and no "/" comes after that. */
  lemma DirNameSpec(p: string)
    ensures '/' !in p ==> DirName(p) == ""
    ensures var d := DirName(p);
      d != "" && d[|d| - 1] == '/' ==> forall i :: 0 <= i < |d| ==> d[i] == '/'
    ensures var d := DirName(p);
      forall i :: |d| <= i < LastSepEnd(p) ==> p[i] == '/'
    ensures '/' !in p[LastSepEnd(p)..]
  {
    var head := p[..LastSepEnd(p)];
    RStripSlashesRemovesSlashes(head);
    LastSepEndIsLast(p);
  }

  /** The directory of a relative path `dir/name` (with a non-empty `dir`
      that does not end in "/" and a `name` without "/") is `dir`. */
  lemma DirNameOfChild(dir: string, name: string)
    requires dir != "" && dir[|dir| - 1] != '/'
    requires '/' !in name
    ensures DirName(dir + "/" + name) == dir
  {
    var p := dir + "/" + name;
    var i := LastSepEnd(p);
    assert p[|dir|] == '/';
    assert p[|dir| + 1..] == name;
    LastSepEndIsLast(p);
    assert i == |dir| + 1;
    assert p[..i] == dir + "/";
    assert (dir + "/")[..|dir|] == dir;
    assert RStripSlashes(dir + "/") == RStripSlashes(dir) == dir;
  }
}
