/** `IndexOrHeadView.check_out_head`: materialise one path as HEAD has it,
    by commands issued through the repository env. */
module HeadCheckout {
  import opened Wrappers
  import opened Paths
  import opened CmdEnv
  import opened Views

  /** The `git ls-tree HEAD <path>` call as it reaches the base, on the reading side. */
  function LsTreeCall(repo: Env, path: string): Call
  {
    Reach(repo.readSide, Call(["git", "ls-tree", "HEAD", path], None, false))
  }

  function CatFileArgv(hash: string): seq<string>
  {
    ["git", "cat-file", "blob", hash]
  }

  /** The shell command that writes a blob to `destPath`. */
  function WriteBlobArgv(hash: string, destPath: string): seq<string>
  {
    ["sh", "-c", ShellEscape(CatFileArgv(hash)) + " > " + ShellQuote(destPath)]
  }

  /** The whole of `check_out_head(repo_env, path, dest_path)`. */
  function CheckOutHeadTrace(answer: Call -> Reply, repo: Env, path: string, destPath: string): Trace
  {
    var c := LsTreeCall(repo, path);
    match Outcome(answer, c)
    case Failure(e) => Trace([c], Some(e))
    case Success(out) => Then(Trace([c], None), MaterialiseTrace(answer, repo, ParseLsTree(out), destPath))
  }

  /** `check_out_head` exactly as its lines 350-377 are written: the same
      calls, but the ls-tree line is read with the space split of line 353. */
  function CheckOutHeadAsWrittenTrace(answer: Call -> Reply, repo: Env, path: string, destPath: string): Trace
  {
    var c := LsTreeCall(repo, path);
    match Outcome(answer, c)
    case Failure(e) => Trace([c], Some(e))
    case Success(out) => Then(Trace([c], None), MaterialiseTrace(answer, repo, ParseLsTreeAsWritten(out), destPath))
  }

  /** For a HEAD entry whose path holds a space, the checkout as written
      raises a ValueError right after the ls-tree read, whereas the intended
      checkout goes on to create the destination's parent. */
  lemma SpacedPathStopsAsWritten(answer: Call -> Reply, repo: Env, path: string, destPath: string,
                                 mode: string, kind: string, hash: string, p1: string, p2: string)
    requires ' ' !in mode && ' ' !in kind && ' ' !in hash && ' ' !in p1
    requires '\t' !in mode && '\t' !in kind && '\t' !in hash
    requires Outcome(answer, LsTreeCall(repo, path)) == Success(LsTreeLine(mode, kind, hash, p1 + " " + p2))
    ensures var t := CheckOutHeadAsWrittenTrace(answer, repo, path, destPath);
      t.calls == [LsTreeCall(repo, path)] && t.error.Some? && t.error.value.ValueError?
    ensures DirName(destPath) != "" ==>
      var t := CheckOutHeadTrace(answer, repo, path, destPath);
      |t.calls| >= 2 && t.calls[1] == Reach(repo.cmdSide, Call(["mkdir", "-p", DirName(destPath)], None, false))
  {
    LsTreeAsWrittenRejectsSpace(mode, kind, hash, p1, p2);
  }

  /** What follows the ls-tree read: parse it, create the parent directory
      (before the mode is looked at), then act on the mode. */
  function MaterialiseTrace(answer: Call -> Reply, repo: Env, entry: Result<(string, string), Error>, destPath: string): Trace
  {
    match entry
    case Failure(e) => Trace([], Some(e))
    case Success(entry) =>
      Then(ParentTrace(answer, repo, destPath), ActionTrace(answer, repo, HeadActionFor(entry.0), entry.1, destPath))
  }

  /** `mkdir -p` of the destination's parent, when it has one. */
  function ParentTrace(answer: Call -> Reply, repo: Env, destPath: string): Trace
  {
    if DirName(destPath) != "" then Single(answer, repo.cmdSide, ["mkdir", "-p", DirName(destPath)])
    else Trace([], None)
  }

  /** A submodule is skipped; a symlink is created with the blob's text as
      its target; a regular file is written through the shell and made
      executable when its mode says so. */
  function ActionTrace(answer: Call -> Reply, repo: Env, action: HeadAction, hash: string, destPath: string): Trace
  {
    match action
    case Submodule => Trace([], None)
    case Symlink =>
      var c := Reach(repo.cmdSide, Call(CatFileArgv(hash), None, false));
      (match Outcome(answer, c)
       case Failure(e) => Trace([c], Some(e))
       case Success(target) => Then(Trace([c], None), Single(answer, repo.cmdSide, ["ln", "-sT", target, destPath])))
    case Blob(executable) =>
      Then(Single(answer, repo.cmdSide, WriteBlobArgv(hash, destPath)),
           if executable then Single(answer, repo.cmdSide, ["chmod", "+x", destPath]) else Trace([], None))
  }

  /** Reading HEAD's entry comes first and is the only read: a failed read
      ends the checkout, and otherwise what follows is the materialisation
      of the parsed entry. */
  lemma CheckOutHeadReadsFirst(answer: Call -> Reply, repo: Env, path: string, destPath: string)
    ensures var t := CheckOutHeadTrace(answer, repo, path, destPath);
      var read := Outcome(answer, LsTreeCall(repo, path));
      && |t.calls| >= 1 && t.calls[0] == LsTreeCall(repo, path)
      && (read.Failure? ==> t == Trace([LsTreeCall(repo, path)], Some(read.error)))
      && (read.Success? ==>
            var rest := MaterialiseTrace(answer, repo, ParseLsTree(read.value), destPath);
            t.calls[1..] == rest.calls && t.error == rest.error)
  {
  }

  /** A malformed entry stops the checkout with nothing issued; otherwise
      the parent directory is created first, whatever the mode, and only if
      that succeeds does the mode-dependent action follow. */
  lemma MaterialiseOrder(answer: Call -> Reply, repo: Env, entry: Result<(string, string), Error>, destPath: string)
    ensures entry.Failure? ==> MaterialiseTrace(answer, repo, entry, destPath) == Trace([], Some(entry.error))
    ensures entry.Success? ==>
      var t := MaterialiseTrace(answer, repo, entry, destPath);
      var parent := ParentTrace(answer, repo, destPath);
      var action := ActionTrace(answer, repo, HeadActionFor(entry.value.0), entry.value.1, destPath);
      && t.calls[..|parent.calls|] == parent.calls
      && (parent.error.Some? ==> t == parent)
      && (parent.error.None? ==> t.calls[|parent.calls|..] == action.calls && t.error == action.error)
  {
  }

  /** Per mode: what a successful checkout issues after the parent directory. */
  lemma ActionByMode(answer: Call -> Reply, repo: Env, mode: string, hash: string, destPath: string)
    ensures mode == "160000" ==> ActionTrace(answer, repo, HeadActionFor(mode), hash, destPath) == Trace([], None)
    ensures mode == "100755" ==>
      var t := ActionTrace(answer, repo, HeadActionFor(mode), hash, destPath);
      var write := Reach(repo.cmdSide, Call(WriteBlobArgv(hash, destPath), None, false));
      t.calls[0] == write
      && (Outcome(answer, write).Success? ==> t.calls == [write, Reach(repo.cmdSide, Call(["chmod", "+x", destPath], None, false))])
    ensures mode !in {"160000", "120000", "100755"} ==>
      ActionTrace(answer, repo, HeadActionFor(mode), hash, destPath) == Single(answer, repo.cmdSide, WriteBlobArgv(hash, destPath))
    ensures mode == "120000" ==>
      var t := ActionTrace(answer, repo, HeadActionFor(mode), hash, destPath);
      var cat := Reach(repo.cmdSide, Call(CatFileArgv(hash), None, false));
      t.calls[0] == cat
      && (Outcome(answer, cat).Success? ==>
            t.calls == [cat, Reach(repo.cmdSide, Call(["ln", "-sT", Outcome(answer, cat).value, destPath], None, false))])
  {
  }

  /** `check_out_head`, issuing its commands one by one. */
  method CheckOutHead(base: Recorder, repo: Env, path: string, destPath: string) returns (err: Option<Error>)
    modifies base
    ensures base.log == old(base.log) + CheckOutHeadTrace(base.answer, repo, path, destPath).calls
    ensures err == CheckOutHeadTrace(base.answer, repo, path, destPath).error
  {
    ghost var log0 := base.log;
    var lsTree := ReadCmd(base, repo, ["git", "ls-tree", "HEAD", path]);
    if lsTree.Failure? {
      return Some(lsTree.error);
    }
    var entry := ParseLsTree(lsTree.value);
    err := Materialise(base, repo, entry, destPath);
    AppendAssoc(log0, [LsTreeCall(repo, path)], MaterialiseTrace(base.answer, repo, entry, destPath).calls);
  }

  method Materialise(base: Recorder, repo: Env, entry: Result<(string, string), Error>, destPath: string) returns (err: Option<Error>)
    modifies base
    ensures base.log == old(base.log) + MaterialiseTrace(base.answer, repo, entry, destPath).calls
    ensures err == MaterialiseTrace(base.answer, repo, entry, destPath).error
  {
    if entry.Failure? {
      return Some(entry.error);
    }
    ghost var log0 := base.log;
    err := MakeParent(base, repo, destPath);
    if err.Some? {
      return;
    }
    var action := HeadActionFor(entry.value.0);
    err := Act(base, repo, action, entry.value.1, destPath);
    AppendAssoc(log0, ParentTrace(base.answer, repo, destPath).calls, ActionTrace(base.answer, repo, action, entry.value.1, destPath).calls);
  }

  /** Create the destination's parent directory, when it has one. */
  method MakeParent(base: Recorder, repo: Env, destPath: string) returns (err: Option<Error>)
    modifies base
    ensures base.log == old(base.log) + ParentTrace(base.answer, repo, destPath).calls
    ensures err == ParentTrace(base.answer, repo, destPath).error
  {
    var parent := DirName(destPath);
    err := None;
    if parent != "" {
      var r := Cmd(base, repo, ["mkdir", "-p", parent], None, false);
      err := ErrorOf(r);
    }
  }

  /** The mode-dependent part of `check_out_head`. */
  method Act(base: Recorder, repo: Env, action: HeadAction, hash: string, destPath: string) returns (err: Option<Error>)
    modifies base
    ensures base.log == old(base.log) + ActionTrace(base.answer, repo, action, hash, destPath).calls
    ensures err == ActionTrace(base.answer, repo, action, hash, destPath).error
  {
    match action
    case Submodule =>
      err := None;
    case Symlink =>
      var target := Cmd(base, repo, CatFileArgv(hash), None, false);
      if target.Failure? {
        return Some(target.error);
      }
      var r := Cmd(base, repo, ["ln", "-sT", target.value, destPath], None, false);
      err := ErrorOf(r);
    case Blob(executable) =>
      var r := Cmd(base, repo, WriteBlobArgv(hash, destPath), None, false);
      if r.Failure? {
        return Some(r.error);
      }
      err := None;
      if executable {
        var r2 := Cmd(base, repo, ["chmod", "+x", destPath], None, false);
        err := ErrorOf(r2);
      }
  }
}
