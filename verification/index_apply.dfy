/** `IndexOrHeadView.apply`: stage every file found in the view's directory
    with one `hash-object -w` and one `update-index --index-info` each. */
module IndexApply {
  import opened Wrappers
  import opened Text
  import opened Paths
  import opened CmdEnv
  import opened Views

  /** `find . -type f -print0`, read in the view's directory. */
  function FindCall(src: Env): Call
  {
    Reach(src.readSide, Call(["find", ".", "-type", "f", "-print0"], None, false))
  }

  /** A `test` probe of a file, issued through `try_cmd` (the mutating side). */
  function ProbeCall(src: Env, flag: string, path: string): Call
  {
    Reach(src.cmdSide, Call(["test", flag, path], None, false))
  }

  function HashObjectCall(repo: Env, dir: string, path: string): Call
  {
    Reach(repo.cmdSide, Call(["git", "hash-object", "-w", PathJoin(dir, path)], None, false))
  }

  function UpdateIndexCall(repo: Env, indexInfo: string): Call
  {
    Reach(repo.cmdSide, Call(["git", "update-index", "--index-info"], Some(indexInfo), false))
  }

  /** The permission staged for a file: what the two probes report. */
  function ProbedPermission(answer: Call -> Reply, src: Env, path: string): string
  {
    PermissionString(Outcome(answer, ProbeCall(src, "-h", path)).Success?,
                     Outcome(answer, ProbeCall(src, "-x", path)).Success?)
  }

  /** The probes and the hashing of one file: the calls before `update-index`. */
  function HashingCalls(repo: Env, src: Env, dir: string, path: string): seq<Call>
  {
    [ProbeCall(src, "-h", path), ProbeCall(src, "-x", path), HashObjectCall(repo, dir, path)]
  }

  /** The `update-index` call that stages a path under the probed
      permission and the output of its `hash-object`. */
  function StagingCall(answer: Call -> Reply, repo: Env, src: Env, path: string, hashOutput: string): Call
  {
    UpdateIndexCall(repo, IndexInfoLine(ProbedPermission(answer, src, path), hashOutput, path))
  }

  /** One path `find` printed: probe it, hash it into the object store, then
      stage it under that hash. */
  function ApplyStep(answer: Call -> Reply, repo: Env, src: Env, dir: string, found: string): Trace
  {
    var path := StripDotSlash(found);
    match Outcome(answer, HashObjectCall(repo, dir, path))
    case Failure(e) => Trace(HashingCalls(repo, src, dir, path), Some(e))
    case Success(out) =>
      Then(Trace(HashingCalls(repo, src, dir, path), None), Issue(answer, [], StagingCall(answer, repo, src, path, out)))
  }

  function ApplySteps(answer: Call -> Reply, repo: Env, src: Env, dir: string, found: seq<string>): (ts: seq<Trace>)
    ensures |ts| == |found|
  {
    if found == [] then []
    else [ApplyStep(answer, repo, src, dir, found[0])] + ApplySteps(answer, repo, src, dir, found[1..])
  }

  lemma {:induction false} ApplyStepsAt(answer: Call -> Reply, repo: Env, src: Env, dir: string, found: seq<string>, i: nat)
    requires i < |found|
    ensures ApplySteps(answer, repo, src, dir, found)[i] == ApplyStep(answer, repo, src, dir, found[i])
    decreases i
  {
    if i > 0 {
      ApplyStepsAt(answer, repo, src, dir, found[1..], i - 1);
    }
  }

  /** The env for the repository (at its absolute path) and the env for the
      view's directory. */
  function ApplyRepoEnv(env: Env, repoPath: string, abspath: string -> string): Env
  {
    PrefixReadable(InDir(abspath(repoPath)), env)
  }

  function SourceEnv(env: Env, dir: string): Env
  {
    PrefixReadable(InDir(dir), env)
  }

  /** The whole of `IndexOrHeadView(repoPath).apply(env, dir)`: `find`'s
      output must end with a NUL (checked before anything is staged); every
      field before that final empty one is a file to stage. */
  function ApplyTrace(answer: Call -> Reply, env: Env, repoPath: string, dir: string, abspath: string -> string): Trace
  {
    var src := SourceEnv(env, dir);
    var c := FindCall(src);
    match Outcome(answer, c)
    case Failure(e) => Trace([c], Some(e))
    case Success(out) =>
      var paths := Split(out, '\0');
      if paths[|paths| - 1] != "" then Trace([c], Some(AssertionError))
      else Then(Trace([c], None), Steps(ApplySteps(answer, ApplyRepoEnv(env, repoPath, abspath), src, dir, paths[..|paths| - 1])))
  }

  /** `find`'s output is checked before anything is staged: unless it is
      empty or ends with a NUL, the run stops with an AssertionError right
      after `find`. */
  lemma ApplyChecksTerminator(answer: Call -> Reply, env: Env, repoPath: string, dir: string, abspath: string -> string)
    requires Outcome(answer, FindCall(SourceEnv(env, dir))).Success?
    ensures var out := Outcome(answer, FindCall(SourceEnv(env, dir))).value;
      !(out == "" || out[|out| - 1] == '\0') ==>
        ApplyTrace(answer, env, repoPath, dir, abspath) == Trace([FindCall(SourceEnv(env, dir))], Some(AssertionError))
  {
    SplitLastEmpty(Outcome(answer, FindCall(SourceEnv(env, dir))).value, '\0');
  }

  /** When `find` prints the files `found`, each followed by a NUL, exactly
      those files are staged, in the order `find` printed them. */
  lemma ApplyOfFindOutput(answer: Call -> Reply, env: Env, repoPath: string, dir: string, abspath: string -> string, found: seq<string>)
    requires forall i :: 0 <= i < |found| ==> '\0' !in found[i]
    requires Outcome(answer, FindCall(SourceEnv(env, dir))) == Success(Terminated(found, '\0'))
    ensures ApplyTrace(answer, env, repoPath, dir, abspath)
      == Then(Trace([FindCall(SourceEnv(env, dir))], None),
              Steps(ApplySteps(answer, ApplyRepoEnv(env, repoPath, abspath), SourceEnv(env, dir), dir, found)))
  {
    var out := Terminated(found, '\0');
    TerminatedFields(found, '\0');
    var paths := Split(out, '\0');
    assert paths[|paths| - 1] == "" && paths[..|paths| - 1] == found;
  }

  /** Per file: the two probes, then exactly one `hash-object -w` of the
      file in the view's directory (with one leading "./" removed from the
      path); if hashing fails nothing more is issued. */
  lemma ApplyStepHashesFirst(answer: Call -> Reply, repo: Env, src: Env, dir: string, found: string)
    ensures var t := ApplyStep(answer, repo, src, dir, found);
      var path := StripDotSlash(found);
      var hash := HashObjectCall(repo, dir, path);
      && t.calls[..3] == [ProbeCall(src, "-h", path), ProbeCall(src, "-x", path), hash]
      && (Outcome(answer, hash).Failure? ==> t == Trace(t.calls[..3], Some(Outcome(answer, hash).error)))
  {
  }

  /** A file staged without error issued four calls, the last two hashing
      it and staging it under the probed permission (a link as a link,
      whatever its executable bit). */
  lemma ApplyStepStaged(answer: Call -> Reply, repo: Env, src: Env, dir: string, found: string)
    requires ApplyStep(answer, repo, src, dir, found).error.None?
    ensures var t := ApplyStep(answer, repo, src, dir, found);
      var path := StripDotSlash(found);
      var hash := HashObjectCall(repo, dir, path);
      && |t.calls| == 4
      && Outcome(answer, hash).Success?
      && t.calls[2] == hash
      && t.calls[3] == StagingCall(answer, repo, src, path, Outcome(answer, hash).value)
      && (Outcome(answer, ProbeCall(src, "-h", path)).Success? ==> ProbedPermission(answer, src, path) == "120000")
  {
  }

  lemma ApplyStepsStagedAt(answer: Call -> Reply, repo: Env, src: Env, dir: string, found: seq<string>, k: nat)
    requires k < |found| && ApplySteps(answer, repo, src, dir, found)[k].error.None?
    ensures var t := ApplySteps(answer, repo, src, dir, found)[k];
      var path := StripDotSlash(found[k]);
      var hash := HashObjectCall(repo, dir, path);
      && |t.calls| == 4
      && Outcome(answer, hash).Success?
      && t.calls[2] == hash
      && t.calls[3] == StagingCall(answer, repo, src, path, Outcome(answer, hash).value)
  {
    ApplyStepsAt(answer, repo, src, dir, found, k);
    ApplyStepStaged(answer, repo, src, dir, found[k]);
  }

  lemma ApplyStepsWidth(answer: Call -> Reply, repo: Env, src: Env, dir: string, found: seq<string>)
    ensures var ts := ApplySteps(answer, repo, src, dir, found);
      forall i :: 0 <= i < |found| && ts[i].error.None? ==> |ts[i].calls| == 4
  {
    var ts := ApplySteps(answer, repo, src, dir, found);
    forall i | 0 <= i < |found| && ts[i].error.None?
      ensures |ts[i].calls| == 4
    {
      ApplyStepsAt(answer, repo, src, dir, found, i);
      ApplyStepStaged(answer, repo, src, dir, found[i]);
    }
  }

  /** When every found file was staged without error, the log holds four
      calls per file, in `find`'s order, and the last two of file `k` hash it
      and stage it. */
  lemma ApplyStagesEach(answer: Call -> Reply, repo: Env, src: Env, dir: string, found: seq<string>, k: nat)
    requires k < |found|
    requires Steps(ApplySteps(answer, repo, src, dir, found)).error.None?
    ensures var t := Steps(ApplySteps(answer, repo, src, dir, found));
      var path := StripDotSlash(found[k]);
      var hash := HashObjectCall(repo, dir, path);
      && |t.calls| == 4 * |found|
      && Outcome(answer, hash).Success?
      && t.calls[4 * k + 2] == hash
      && t.calls[4 * k + 3] == StagingCall(answer, repo, src, path, Outcome(answer, hash).value)
  {
    var ts := ApplySteps(answer, repo, src, dir, found);
    ApplyStepsWidth(answer, repo, src, dir, found);
    FourCallBlocks(ts, k);
    ApplyStepsStagedAt(answer, repo, src, dir, found, k);
  }

  /** Steps of four calls each, run without error: step `k`'s last two calls
      sit at `4k + 2` and `4k + 3`. */
  lemma FourCallBlocks(ts: seq<Trace>, k: nat)
    requires k < |ts|
    requires Steps(ts).error.None?
    requires forall i :: 0 <= i < |ts| && ts[i].error.None? ==> |ts[i].calls| == 4
    ensures ts[k].error.None?
    ensures |Steps(ts).calls| == 4 * |ts|
    ensures Steps(ts).calls[4 * k + 2] == ts[k].calls[2] && Steps(ts).calls[4 * k + 3] == ts[k].calls[3]
  {
    RunSucceeds(ts, |ts|);
    assert ts[k].error.None?;
    RunOfEqualSteps(ts, 4, |ts|, k);
    var block := Steps(ts).calls[4 * k..4 * k + 4];
    assert Steps(ts).calls[4 * k + 2] == block[2];
    assert Steps(ts).calls[4 * k + 3] == block[3];
  }

  /** One found path: probe it, hash it, stage it. */
  method ApplyOne(base: Recorder, repo: Env, src: Env, dir: string, found: string) returns (err: Option<Error>)
    modifies base
    ensures base.log == old(base.log) + ApplyStep(base.answer, repo, src, dir, found).calls
    ensures err == ApplyStep(base.answer, repo, src, dir, found).error
  {
    var path := StripDotSlash(found);
    var permission, hashObject := HashFile(base, repo, src, dir, path);
    if hashObject.Failure? {
      return Some(hashObject.error);
    }
    var indexInfo := IndexInfoLine(permission, hashObject.value, path);
    var r := Cmd(base, repo, ["git", "update-index", "--index-info"], Some(indexInfo), false);
    AppendAssoc(old(base.log), HashingCalls(repo, src, dir, path), [UpdateIndexCall(repo, indexInfo)]);
    err := ErrorOf(r);
  }

  /** Probe a file's kind and write it into the object store. */
  method HashFile(base: Recorder, repo: Env, src: Env, dir: string, path: string)
    returns (permission: string, hashObject: Result<string, Error>)
    modifies base
    ensures base.log == old(base.log) + HashingCalls(repo, src, dir, path)
    ensures permission == ProbedPermission(base.answer, src, path)
    ensures hashObject == Outcome(base.answer, HashObjectCall(repo, dir, path))
  {
    var isLink := TryCmd(base, src, ["test", "-h", path]);
    var isExecutable := TryCmd(base, src, ["test", "-x", path]);
    permission := PermissionString(isLink, isExecutable);
    hashObject := Cmd(base, repo, ["git", "hash-object", "-w", PathJoin(dir, path)], None, false);
    AppendThree(old(base.log), ProbeCall(src, "-h", path), ProbeCall(src, "-x", path), HashObjectCall(repo, dir, path));
  }

  /** Step `i` of the loop over the found paths, as a step of the run. */
  method ApplyAt(base: Recorder, repo: Env, src: Env, dir: string, found: seq<string>, i: nat, ghost log0: seq<Call>)
    returns (err: Option<Error>)
    requires i < |found|
    requires Run(ApplySteps(base.answer, repo, src, dir, found), i).error.None?
    requires base.log == log0 + Run(ApplySteps(base.answer, repo, src, dir, found), i).calls
    modifies base
    ensures base.log == log0 + Run(ApplySteps(base.answer, repo, src, dir, found), i + 1).calls
    ensures err == Run(ApplySteps(base.answer, repo, src, dir, found), i + 1).error
    ensures err.Some? ==>
      && base.log == log0 + Steps(ApplySteps(base.answer, repo, src, dir, found)).calls
      && err == Steps(ApplySteps(base.answer, repo, src, dir, found)).error
  {
    ApplyStepsAt(base.answer, repo, src, dir, found, i);
    err := ApplyOne(base, repo, src, dir, found[i]);
    StepAppended(log0, ApplySteps(base.answer, repo, src, dir, found), i, base.log);
  }

  /** The loop over the found paths. */
  method ApplyAll(base: Recorder, repo: Env, src: Env, dir: string, found: seq<string>) returns (err: Option<Error>)
    modifies base
    ensures base.log == old(base.log) + Steps(ApplySteps(base.answer, repo, src, dir, found)).calls
    ensures err == Steps(ApplySteps(base.answer, repo, src, dir, found)).error
  {
    ghost var ts := ApplySteps(base.answer, repo, src, dir, found);
    ghost var log0 := base.log;
    var i := 0;
    while i < |found|
      invariant 0 <= i <= |found|
      invariant base.log == log0 + Run(ts, i).calls
      invariant Run(ts, i).error.None?
    {
      var e := ApplyAt(base, repo, src, dir, found, i, log0);
      if e.Some? {
        return e;
      }
      i := i + 1;
    }
    err := None;
  }

  /** `IndexOrHeadView(repoPath).apply(env, dir)`; `abspath` stands for
      `os.path.abspath`, which depends on the process's working directory. */
  method Apply(base: Recorder, env: Env, repoPath: string, dir: string, abspath: string -> string) returns (err: Option<Error>)
    modifies base
    ensures base.log == old(base.log) + ApplyTrace(base.answer, env, repoPath, dir, abspath).calls
    ensures err == ApplyTrace(base.answer, env, repoPath, dir, abspath).error
  {
    var repo := PrefixReadable(InDir(abspath(repoPath)), env);
    var src := PrefixReadable(InDir(dir), env);
    var find := ReadCmd(base, src, ["find", ".", "-type", "f", "-print0"]);
    if find.Failure? {
      return Some(find.error);
    }
    var paths := Split(find.value, '\0');
    if paths[|paths| - 1] != "" {
      return Some(AssertionError);
    }
    err := ApplyAll(base, repo, src, dir, paths[..|paths| - 1]);
    AppendAssoc(old(base.log), [FindCall(src)], Steps(ApplySteps(base.answer, repo, src, dir, paths[..|paths| - 1])).calls);
  }
}
