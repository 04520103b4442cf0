/** `StageableWorkingTreeSubsetView.write`: copy every untracked file and
    every modified file of the working tree into the view's directory, then
    make the copies read-only. */
module WorkingWrite {
  import opened Wrappers
  import opened Text
  import opened Paths
  import opened CmdEnv
  import opened DiffRecords

  /** `git ls-files -z --others --exclude-standard`, read at the repository. */
  function LsFilesCall(repo: Env): Call
  {
    Reach(repo.readSide, Call(["git", "ls-files", "-z", "--others", "--exclude-standard"], None, false))
  }

  /** `git diff-index -z HEAD`, read at the repository. */
  function DiffIndexCall(repo: Env): Call
  {
    Reach(repo.readSide, Call(["git", "diff-index", "-z", "HEAD"], None, false))
  }

  function MkdirCall(dest: Env, dir: string): Call
  {
    Reach(dest.cmdSide, Call(["mkdir", "-p", dir], None, false))
  }

  /** `cp -Pp` of one path from the repository to the same relative path in
      the view's directory (symlinks copied as symlinks, modes kept). */
  function CopyCall(dest: Env, absRepoPath: string, path: string): Call
  {
    Reach(dest.cmdSide, Call(["cp", "-Pp", PathJoin(absRepoPath, path), path], None, false))
  }

  function ChmodCall(dest: Env, destDir: string): Call
  {
    Reach(dest.cmdSide, Call(["chmod", "-R", "a-w", destDir], None, false))
  }

  /** `_untracked`: the NUL-separated names, without the last field. The
      last field is dropped unchecked, so a final name with no NUL after it
      is lost. */
  function Untracked(out: string): seq<string>
  {
    var parts := Split(out, '\0');
    parts[..|parts| - 1]
  }

  /** One path: create its parent directory when it has one, then copy it. */
  function CopyStep(answer: Call -> Reply, dest: Env, absRepoPath: string, path: string): Trace
  {
    Then(if DirName(path) != "" then Issue(answer, [], MkdirCall(dest, DirName(path))) else Trace([], None),
         Issue(answer, [], CopyCall(dest, absRepoPath, path)))
  }

  function CopySteps(answer: Call -> Reply, dest: Env, absRepoPath: string, paths: seq<string>): (ts: seq<Trace>)
    ensures |ts| == |paths|
  {
    if paths == [] then [] else [CopyStep(answer, dest, absRepoPath, paths[0])] + CopySteps(answer, dest, absRepoPath, paths[1..])
  }

  lemma {:induction false} CopyStepsAt(answer: Call -> Reply, dest: Env, absRepoPath: string, paths: seq<string>, i: nat)
    requires i < |paths|
    ensures CopySteps(answer, dest, absRepoPath, paths)[i] == CopyStep(answer, dest, absRepoPath, paths[i])
    decreases i
  {
    if i > 0 {
      CopyStepsAt(answer, dest, absRepoPath, paths[1..], i - 1);
    }
  }

  /** The env at the repository and the env at the destination directory. */
  function RepoEnv(env: Env, repoPath: string): Env
  {
    PrefixReadable(InDir(repoPath), env)
  }

  function DestEnv(env: Env, destDir: string): Env
  {
    PrefixReadable(InDir(destDir), env)
  }

  /** What follows the untracked copies: the modified records are read and
      copied as the generator yields them; a malformed record ends the write
      after the copies before it; only a complete run makes the copies
      read-only. */
  function ModifiedTrace(answer: Call -> Reply, repo: Env, dest: Env, absRepoPath: string, destDir: string): Trace
  {
    var d := DiffIndexCall(repo);
    match Outcome(answer, d)
    case Failure(e) => Trace([d], Some(e))
    case Success(out) =>
      var modified := IterUndeleted(out);
      Then(Trace([d], None),
           Then(ThenRaise(Steps(CopySteps(answer, dest, absRepoPath, RecordPaths(modified.records))), modified.error),
                Issue(answer, [], ChmodCall(dest, destDir))))
  }

  /** The whole of `StageableWorkingTreeSubsetView(repoPath).write(env,
      destDir)`: the untracked list is read in full first; the modified
      paths are only read once every untracked file has been copied. */
  function WorkingWriteTrace(answer: Call -> Reply, env: Env, repoPath: string, destDir: string, abspath: string -> string): Trace
  {
    var repo := RepoEnv(env, repoPath);
    var dest := DestEnv(env, destDir);
    var c := LsFilesCall(repo);
    match Outcome(answer, c)
    case Failure(e) => Trace([c], Some(e))
    case Success(out) =>
      Then(Trace([c], None),
           Then(Steps(CopySteps(answer, dest, abspath(repoPath), Untracked(out))),
                ModifiedTrace(answer, repo, dest, abspath(repoPath), destDir)))
  }

  /** The calls one copy makes when it succeeds. */
  function CopyCallsOf(dest: Env, absRepoPath: string, path: string): seq<Call>
  {
    (if DirName(path) != "" then [MkdirCall(dest, DirName(path))] else []) + [CopyCall(dest, absRepoPath, path)]
  }

  /** The calls of each copy when it succeeds, path by path. */
  function CopyCallLists(dest: Env, absRepoPath: string, paths: seq<string>): seq<seq<Call>>
  {
    seq(|paths|, i requires 0 <= i < |paths| => CopyCallsOf(dest, absRepoPath, paths[i]))
  }

  /** The calls of copying `paths` one after another when every copy
      succeeds. */
  function CopyCalls(dest: Env, absRepoPath: string, paths: seq<string>): seq<Call>
  {
    Concat(CopyCallLists(dest, absRepoPath, paths))
  }

  /** One copy: the parent directory (when the path has one) is created
      before the copy, and nothing follows a failure. */
  lemma CopyStepCalls(answer: Call -> Reply, dest: Env, absRepoPath: string, path: string)
    ensures var t := CopyStep(answer, dest, absRepoPath, path);
      && t.calls <= CopyCallsOf(dest, absRepoPath, path)
      && (t.error.None? ==> t.calls == CopyCallsOf(dest, absRepoPath, path))
  {
  }

  /** Copying issues a prefix of the copies' calls, and all of them when no
      copy fails. */
  lemma CopyStepsCalls(answer: Call -> Reply, dest: Env, absRepoPath: string, paths: seq<string>)
    ensures var t := Steps(CopySteps(answer, dest, absRepoPath, paths));
      && t.calls <= CopyCalls(dest, absRepoPath, paths)
      && (t.error.None? ==> t.calls == CopyCalls(dest, absRepoPath, paths))
  {
    var ts := CopySteps(answer, dest, absRepoPath, paths);
    var xs := CopyCallLists(dest, absRepoPath, paths);
    forall i | 0 <= i < |ts|
      ensures ts[i].calls <= xs[i]
      ensures ts[i].error.None? ==> ts[i].calls == xs[i]
    {
      CopyStepsAt(answer, dest, absRepoPath, paths, i);
      CopyStepCalls(answer, dest, absRepoPath, paths[i]);
    }
    RunWithin(ts, xs, |ts|);
    assert xs[..|ts|] == xs;
  }

  /** The modified part of a write that raises nothing: the read, a copy of
      every record that is not deleted, and the `chmod` last. */
  lemma ModifiedComplete(answer: Call -> Reply, repo: Env, dest: Env, absRepoPath: string, destDir: string)
    requires ModifiedTrace(answer, repo, dest, absRepoPath, destDir).error.None?
    ensures && Outcome(answer, DiffIndexCall(repo)).Success?
      && ModifiedTrace(answer, repo, dest, absRepoPath, destDir).calls
         == [DiffIndexCall(repo)]
            + CopyCalls(dest, absRepoPath, RecordPaths(IterUndeleted(Outcome(answer, DiffIndexCall(repo)).value).records))
            + [ChmodCall(dest, destDir)]
  {
    var d := DiffIndexCall(repo);
    if Outcome(answer, d).Success? {
      var modified := IterUndeleted(Outcome(answer, d).value);
      var copies := Steps(CopySteps(answer, dest, absRepoPath, RecordPaths(modified.records)));
      ReadCopiesThenFinish(d, copies, modified.error, Issue(answer, [], ChmodCall(dest, destDir)));
      CopyStepsCalls(answer, dest, absRepoPath, RecordPaths(modified.records));
    }
  }

  /** A read, copies that may end in a raise, and a last call: when nothing
      raises, every part ran in full. */
  lemma ReadCopiesThenFinish(d: Call, copies: Trace, e: Option<Error>, last: Trace)
    requires Then(Trace([d], None), Then(ThenRaise(copies, e), last)).error.None?
    ensures copies.error.None? && e.None?
    ensures Then(Trace([d], None), Then(ThenRaise(copies, e), last)).calls == [d] + copies.calls + last.calls
  {
  }

  /** A write that raises nothing read the untracked list, copied every
      untracked file, then read the modified records, copied every one that
      is not deleted, and made the copies read-only last. */
  lemma WorkingWriteComplete(answer: Call -> Reply, env: Env, repoPath: string, destDir: string, abspath: string -> string)
    requires WorkingWriteTrace(answer, env, repoPath, destDir, abspath).error.None?
    ensures var repo := RepoEnv(env, repoPath);
      var dest := DestEnv(env, destDir);
      && Outcome(answer, LsFilesCall(repo)).Success?
      && Outcome(answer, DiffIndexCall(repo)).Success?
      && WorkingWriteTrace(answer, env, repoPath, destDir, abspath).calls
         == [LsFilesCall(repo)]
            + CopyCalls(dest, abspath(repoPath), Untracked(Outcome(answer, LsFilesCall(repo)).value))
            + ([DiffIndexCall(repo)]
               + CopyCalls(dest, abspath(repoPath), RecordPaths(IterUndeleted(Outcome(answer, DiffIndexCall(repo)).value).records))
               + [ChmodCall(dest, destDir)])
  {
    var repo := RepoEnv(env, repoPath);
    var dest := DestEnv(env, destDir);
    var untracked := Untracked(Outcome(answer, LsFilesCall(repo)).value);
    var copies := Steps(CopySteps(answer, dest, abspath(repoPath), untracked));
    var rest := ModifiedTrace(answer, repo, dest, abspath(repoPath), destDir);
    assert WorkingWriteTrace(answer, env, repoPath, destDir, abspath).calls == [LsFilesCall(repo)] + (copies.calls + rest.calls);
    CopyStepsCalls(answer, dest, abspath(repoPath), untracked);
    ModifiedComplete(answer, repo, dest, abspath(repoPath), destDir);
    AppendAssoc([LsFilesCall(repo)], copies.calls, rest.calls);
  }

  /** A malformed modified record stops the write after the copies of the
      records before it: nothing but copies follows the read, and the copies
      are never made read-only. */
  lemma MalformedStopsBeforeChmod(answer: Call -> Reply, repo: Env, dest: Env, absRepoPath: string, destDir: string)
    requires Outcome(answer, DiffIndexCall(repo)).Success?
    requires IterUndeleted(Outcome(answer, DiffIndexCall(repo)).value).error.Some?
    ensures var t := ModifiedTrace(answer, repo, dest, absRepoPath, destDir);
      var modified := IterUndeleted(Outcome(answer, DiffIndexCall(repo)).value);
      && t.error.Some?
      && t.calls <= [DiffIndexCall(repo)] + CopyCalls(dest, absRepoPath, RecordPaths(modified.records))
  {
    var modified := IterUndeleted(Outcome(answer, DiffIndexCall(repo)).value);
    CopyStepsCalls(answer, dest, absRepoPath, RecordPaths(modified.records));
  }

  /** Names printed by `ls-files -z`, each followed by a NUL, come back as
      the untracked list; a trailing name with no NUL after it is dropped. */
  lemma UntrackedOfListing(names: seq<string>, tail: string)
    requires forall i :: 0 <= i < |names| ==> '\0' !in names[i]
    requires '\0' !in tail
    ensures Untracked(Terminated(names, '\0') + tail) == names
  {
    var all := names + [tail];
    JoinLast(names, tail, '\0');
    assert forall i :: 0 <= i < |all| ==> '\0' !in all[i] by {
      forall i | 0 <= i < |all| ensures '\0' !in all[i] {
        if i < |names| {
          assert all[i] == names[i];
        }
      }
    }
    SplitJoin(all, '\0');
    assert all[..|all| - 1] == names;
  }

  /** The untracked list, as `write` reads it. */
  method ReadUntracked(base: Recorder, repo: Env) returns (r: Result<seq<string>, Error>)
    modifies base
    ensures base.log == old(base.log) + [LsFilesCall(repo)]
    ensures Outcome(base.answer, LsFilesCall(repo)).Failure? ==> r == Failure(Outcome(base.answer, LsFilesCall(repo)).error)
    ensures Outcome(base.answer, LsFilesCall(repo)).Success? ==> r == Success(Untracked(Outcome(base.answer, LsFilesCall(repo)).value))
  {
    var process := ReadCmd(base, repo, ["git", "ls-files", "-z", "--others", "--exclude-standard"]);
    if process.Failure? {
      return Failure(process.error);
    }
    var parts := Split(process.value, '\0');
    r := Success(parts[..|parts| - 1]);
  }

  /** Copy one path into the view's directory. */
  method CopyOne(base: Recorder, dest: Env, absRepoPath: string, path: string) returns (err: Option<Error>)
    modifies base
    ensures base.log == old(base.log) + CopyStep(base.answer, dest, absRepoPath, path).calls
    ensures err == CopyStep(base.answer, dest, absRepoPath, path).error
  {
    var dirPath := DirName(path);
    if dirPath != "" {
      var r := Cmd(base, dest, ["mkdir", "-p", dirPath], None, false);
      if r.Failure? {
        return Some(r.error);
      }
    }
    var r := Cmd(base, dest, ["cp", "-Pp", PathJoin(absRepoPath, path), path], None, false);
    err := ErrorOf(r);
    if dirPath != "" {
      AppendAssoc(old(base.log), [MkdirCall(dest, dirPath)], [CopyCall(dest, absRepoPath, path)]);
    } else {
      assert [] + [CopyCall(dest, absRepoPath, path)] == [CopyCall(dest, absRepoPath, path)];
    }
  }

  /** Step `i` of a copy loop, as a step of the run. */
  method CopyAt(base: Recorder, dest: Env, absRepoPath: string, paths: seq<string>, i: nat, ghost log0: seq<Call>)
    returns (err: Option<Error>)
    requires i < |paths|
    requires Run(CopySteps(base.answer, dest, absRepoPath, paths), i).error.None?
    requires base.log == log0 + Run(CopySteps(base.answer, dest, absRepoPath, paths), i).calls
    modifies base
    ensures base.log == log0 + Run(CopySteps(base.answer, dest, absRepoPath, paths), i + 1).calls
    ensures err == Run(CopySteps(base.answer, dest, absRepoPath, paths), i + 1).error
    ensures err.Some? ==>
      && base.log == log0 + Steps(CopySteps(base.answer, dest, absRepoPath, paths)).calls
      && err == Steps(CopySteps(base.answer, dest, absRepoPath, paths)).error
  {
    CopyStepsAt(base.answer, dest, absRepoPath, paths, i);
    err := CopyOne(base, dest, absRepoPath, paths[i]);
    StepAppended(log0, CopySteps(base.answer, dest, absRepoPath, paths), i, base.log);
  }

  /** Copy the paths one by one, stopping at the first failure. */
  method CopyAll(base: Recorder, dest: Env, absRepoPath: string, paths: seq<string>) returns (err: Option<Error>)
    modifies base
    ensures base.log == old(base.log) + Steps(CopySteps(base.answer, dest, absRepoPath, paths)).calls
    ensures err == Steps(CopySteps(base.answer, dest, absRepoPath, paths)).error
  {
    ghost var ts := CopySteps(base.answer, dest, absRepoPath, paths);
    ghost var log0 := base.log;
    var i := 0;
    while i < |paths|
      invariant 0 <= i <= |paths|
      invariant base.log == log0 + Run(ts, i).calls
      invariant Run(ts, i).error.None?
    {
      var e := CopyAt(base, dest, absRepoPath, paths, i, log0);
      if e.Some? {
        return e;
      }
      i := i + 1;
    }
    err := None;
  }

  /** The modified paths: read, copied as yielded, then the `chmod`. */
  method CopyModified(base: Recorder, repo: Env, dest: Env, absRepoPath: string, destDir: string) returns (err: Option<Error>)
    modifies base
    ensures base.log == old(base.log) + ModifiedTrace(base.answer, repo, dest, absRepoPath, destDir).calls
    ensures err == ModifiedTrace(base.answer, repo, dest, absRepoPath, destDir).error
  {
    var out := ReadCmd(base, repo, ["git", "diff-index", "-z", "HEAD"]);
    if out.Failure? {
      return Some(out.error);
    }
    var modified := IterUndeleted(out.value);
    ghost var copies := Steps(CopySteps(base.answer, dest, absRepoPath, RecordPaths(modified.records)));
    err := CopyAll(base, dest, absRepoPath, RecordPaths(modified.records));
    if err.None? {
      err := modified.error;
    }
    if err.Some? {
      AppendAssoc(old(base.log), [DiffIndexCall(repo)], copies.calls);
      return;
    }
    var r := Cmd(base, dest, ["chmod", "-R", "a-w", destDir], None, false);
    err := ErrorOf(r);
    AppendAssoc(old(base.log), [DiffIndexCall(repo)], copies.calls);
    AppendAssoc(old(base.log), [DiffIndexCall(repo)] + copies.calls, [ChmodCall(dest, destDir)]);
    AppendAssoc([DiffIndexCall(repo)], copies.calls, [ChmodCall(dest, destDir)]);
  }

  /** `StageableWorkingTreeSubsetView(repoPath).write(env, destDir)`;
      `abspath` stands for `os.path.abspath`. */
  method WorkingWrite(base: Recorder, env: Env, repoPath: string, destDir: string, abspath: string -> string)
    returns (err: Option<Error>)
    modifies base
    ensures base.log == old(base.log) + WorkingWriteTrace(base.answer, env, repoPath, destDir, abspath).calls
    ensures err == WorkingWriteTrace(base.answer, env, repoPath, destDir, abspath).error
  {
    var repo := PrefixReadable(InDir(repoPath), env);
    var absRepoPath := abspath(repoPath);
    var dest := PrefixReadable(InDir(destDir), env);
    var untracked := ReadUntracked(base, repo);
    if untracked.Failure? {
      return Some(untracked.error);
    }
    ghost var copies := Steps(CopySteps(base.answer, dest, absRepoPath, untracked.value));
    err := CopyAll(base, dest, absRepoPath, untracked.value);
    if err.Some? {
      AppendAssoc(old(base.log), [LsFilesCall(repo)], copies.calls);
      return;
    }
    err := CopyModified(base, repo, dest, absRepoPath, destDir);
    ghost var rest := ModifiedTrace(base.answer, repo, dest, absRepoPath, destDir).calls;
    AppendAssoc(old(base.log), [LsFilesCall(repo)], copies.calls);
    AppendAssoc(old(base.log), [LsFilesCall(repo)] + copies.calls, rest);
    AppendAssoc([LsFilesCall(repo)], copies.calls, rest);
  }
}
