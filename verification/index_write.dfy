/** `IndexOrHeadView.write`: fill the view's directory with every file
    staged in the index, and with HEAD's version of every other file modified
    in the working tree. */
module IndexWrite {
  import opened Wrappers
  import opened Text
  import opened Paths
  import opened CmdEnv
  import opened DiffRecords
  import opened HeadCheckout

  /** The env whose commands run at the top of the repository. */
  function RepoEnv(env: Env, repoPath: string): Env
  {
    PrefixReadable(InDir(repoPath), env)
  }

  /** `git diff-index -z --cached HEAD`, read through the caller's env. */
  function CachedDiffCall(env: Env): Call
  {
    Reach(env.readSide, Call(["git", "diff-index", "-z", "--cached", "HEAD"], None, false))
  }

  /** `git diff-index -z HEAD`, read through the caller's env. */
  function WorkingDiffCall(env: Env): Call
  {
    Reach(env.readSide, Call(["git", "diff-index", "-z", "HEAD"], None, false))
  }

  /** The checkout of one staged file under the destination prefix. */
  function CheckoutIndexArgv(destDir: string, path: string): seq<string>
  {
    ["git", "checkout-index", "--prefix=" + EnsureTrailingSlash(destDir), path]
  }

  /** One staged record: checked out unless it is unmerged ("U"), whose
      state in the index must not be replaced. */
  function IndexStep(answer: Call -> Reply, repo: Env, destDir: string, r: DiffRecord): Trace
  {
    if r.status != "U" then Single(answer, repo.cmdSide, CheckoutIndexArgv(destDir, r.path))
    else Trace([], None)
  }

  function IndexSteps(answer: Call -> Reply, repo: Env, destDir: string, rs: seq<DiffRecord>): (ts: seq<Trace>)
    ensures |ts| == |rs|
  {
    if rs == [] then [] else [IndexStep(answer, repo, destDir, rs[0])] + IndexSteps(answer, repo, destDir, rs[1..])
  }

  /** The paths of some records, as a set. */
  function PathSet(rs: seq<DiffRecord>): set<string>
  {
    set r | r in rs :: r.path
  }

  /** One working-tree path: taken from HEAD unless the index already supplied it. */
  function HeadStep(answer: Call -> Reply, repo: Env, destDir: string, indexPaths: set<string>, path: string): Trace
  {
    if path in indexPaths then Trace([], None)
    else CheckOutHeadTrace(answer, repo, path, PathJoin(destDir, path))
  }

  function HeadSteps(answer: Call -> Reply, repo: Env, destDir: string, indexPaths: set<string>, paths: seq<string>): (ts: seq<Trace>)
    ensures |ts| == |paths|
  {
    if paths == [] then [] else [HeadStep(answer, repo, destDir, indexPaths, paths[0])] + HeadSteps(answer, repo, destDir, indexPaths, paths[1..])
  }

  lemma {:induction false} IndexStepsAt(answer: Call -> Reply, repo: Env, destDir: string, rs: seq<DiffRecord>, i: nat)
    requires i < |rs|
    ensures IndexSteps(answer, repo, destDir, rs)[i] == IndexStep(answer, repo, destDir, rs[i])
    decreases i
  {
    if i > 0 {
      IndexStepsAt(answer, repo, destDir, rs[1..], i - 1);
    }
  }

  lemma {:induction false} HeadStepsAt(answer: Call -> Reply, repo: Env, destDir: string, indexPaths: set<string>, paths: seq<string>, i: nat)
    requires i < |paths|
    ensures HeadSteps(answer, repo, destDir, indexPaths, paths)[i] == HeadStep(answer, repo, destDir, indexPaths, paths[i])
    decreases i
  {
    if i > 0 {
      HeadStepsAt(answer, repo, destDir, indexPaths, paths[1..], i - 1);
    }
  }

  /** The first phase: read the staged records lazily, checking each out as
      it is yielded; a malformed record ends the phase after the checkouts
      of the records before it. */
  function IndexPhaseTrace(answer: Call -> Reply, env: Env, repo: Env, destDir: string): Trace
  {
    var c := CachedDiffCall(env);
    match Outcome(answer, c)
    case Failure(e) => Trace([c], Some(e))
    case Success(out) =>
      var cached := IterUndeleted(out);
      Then(Trace([c], None), ThenRaise(Steps(IndexSteps(answer, repo, destDir, cached.records)), cached.error))
  }

  /** The paths the first phase records in `index_paths`: every undeleted
      staged path, unmerged ones included (empty when the read failed). */
  function IndexPaths(answer: Call -> Reply, env: Env): set<string>
  {
    match Outcome(answer, CachedDiffCall(env))
    case Failure(_) => {}
    case Success(out) => PathSet(IterUndeleted(out).records)
  }

  /** The second phase: the modified paths are all read into a list first
      (so a malformed record stops it before any checkout), then each path
      not staged is checked out from HEAD. */
  function HeadPhaseTrace(answer: Call -> Reply, env: Env, repo: Env, destDir: string, indexPaths: set<string>): Trace
  {
    var c := WorkingDiffCall(env);
    match Outcome(answer, c)
    case Failure(e) => Trace([c], Some(e))
    case Success(out) =>
      var working := IterUndeleted(out);
      if working.error.Some? then Trace([c], working.error)
      else Then(Trace([c], None), Steps(HeadSteps(answer, repo, destDir, indexPaths, RecordPaths(working.records))))
  }

  /** The whole of `IndexOrHeadView(repoPath).write(env, destDir)`. */
  function WriteTrace(answer: Call -> Reply, env: Env, repoPath: string, destDir: string): Trace
  {
    var repo := RepoEnv(env, repoPath);
    Then(IndexPhaseTrace(answer, env, repo, destDir),
         HeadPhaseTrace(answer, env, repo, destDir, IndexPaths(answer, env)))
  }

  /** The calls of the checkout steps when every one of them succeeds: one
      checkout-index per record that is not unmerged, in order. */
  function CheckoutCalls(repo: Env, destDir: string, rs: seq<DiffRecord>): seq<Call>
    decreases |rs|
  {
    if rs == [] then []
    else
      CheckoutCalls(repo, destDir, rs[..|rs| - 1])
      + (if rs[|rs| - 1].status != "U"
         then [Reach(repo.cmdSide, Call(CheckoutIndexArgv(destDir, rs[|rs| - 1].path), None, false))]
         else [])
  }

  /** The first `n` checkout steps issue a prefix of the checkouts of the
      first `n` records that are not unmerged, and all of them when none
      fails. */
  lemma {:induction false} IndexRunCalls(answer: Call -> Reply, repo: Env, destDir: string, rs: seq<DiffRecord>, n: nat)
    requires n <= |rs|
    ensures var t := Run(IndexSteps(answer, repo, destDir, rs), n);
      && t.calls <= CheckoutCalls(repo, destDir, rs[..n])
      && (t.error.None? ==> t.calls == CheckoutCalls(repo, destDir, rs[..n]))
    decreases n
  {
    if n > 0 {
      IndexRunCalls(answer, repo, destDir, rs, n - 1);
      IndexStepsAt(answer, repo, destDir, rs, n - 1);
      assert rs[..n][..n - 1] == rs[..n - 1];
    }
  }

  /** The first phase issues a prefix of the checkouts of the records that
      are not unmerged, and all of them when none fails: an unmerged record
      is never checked out from the index. */
  lemma IndexStepsCalls(answer: Call -> Reply, repo: Env, destDir: string, rs: seq<DiffRecord>)
    ensures var t := Steps(IndexSteps(answer, repo, destDir, rs));
      && t.calls <= CheckoutCalls(repo, destDir, rs)
      && (t.error.None? ==> t.calls == CheckoutCalls(repo, destDir, rs))
  {
    IndexRunCalls(answer, repo, destDir, rs, |rs|);
    assert rs[..|rs|] == rs;
  }

  /** A staged path, unmerged or not, is never taken from HEAD. */
  lemma StagedNotFromHead(answer: Call -> Reply, env: Env, repo: Env, destDir: string, r: DiffRecord)
    requires Outcome(answer, CachedDiffCall(env)).Success?
    requires r in IterUndeleted(Outcome(answer, CachedDiffCall(env)).value).records
    ensures HeadStep(answer, repo, destDir, IndexPaths(answer, env), r.path) == Trace([], None)
  {
  }

  /** A modified path that was not staged is checked out from HEAD to its
      place under the destination directory. */
  lemma UnstagedFromHead(answer: Call -> Reply, repo: Env, destDir: string, indexPaths: set<string>, path: string)
    requires path !in indexPaths
    ensures var t := HeadStep(answer, repo, destDir, indexPaths, path);
      t.calls[0] == LsTreeCall(repo, path) && t == CheckOutHeadTrace(answer, repo, path, PathJoin(destDir, path))
  {
    CheckOutHeadReadsFirst(answer, repo, path, PathJoin(destDir, path));
  }

  /** Every checkout-index names a destination prefix ending in "/", so git
      puts the file inside the directory rather than next to it. */
  lemma CheckoutPrefixIsDirectory(destDir: string, path: string)
    ensures var prefix := CheckoutIndexArgv(destDir, path)[2];
      "--prefix=" <= prefix && prefix[|prefix| - 1] == '/'
      && prefix == "--prefix=" + destDir + (if EndsWith(destDir, "/") then "" else "/")
  {
  }

  /** The first phase: read the staged records and check out each one. */
  method WriteIndexPhase(base: Recorder, env: Env, repo: Env, destDir: string)
    returns (err: Option<Error>, indexPaths: set<string>)
    modifies base
    ensures base.log == old(base.log) + IndexPhaseTrace(base.answer, env, repo, destDir).calls
    ensures err == IndexPhaseTrace(base.answer, env, repo, destDir).error
    ensures err.None? ==> indexPaths == IndexPaths(base.answer, env)
  {
    indexPaths := {};
    var out := ReadCmd(base, env, ["git", "diff-index", "-z", "--cached", "HEAD"]);
    if out.Failure? {
      return Some(out.error), indexPaths;
    }
    var cached := IterUndeleted(out.value);
    err, indexPaths := CheckoutStaged(base, repo, destDir, cached.records);
    if err.None? {
      err := cached.error;
    }
    AppendAssoc(old(base.log), [CachedDiffCall(env)], Steps(IndexSteps(base.answer, repo, destDir, cached.records)).calls);
  }

  /** The loop over the staged records. */
  method CheckoutStaged(base: Recorder, repo: Env, destDir: string, records: seq<DiffRecord>)
    returns (err: Option<Error>, indexPaths: set<string>)
    modifies base
    ensures base.log == old(base.log) + Steps(IndexSteps(base.answer, repo, destDir, records)).calls
    ensures err == Steps(IndexSteps(base.answer, repo, destDir, records)).error
    ensures err.None? ==> indexPaths == PathSet(records)
  {
    ghost var ts := IndexSteps(base.answer, repo, destDir, records);
    ghost var log0 := base.log;
    indexPaths := {};
    var i := 0;
    while i < |records|
      invariant 0 <= i <= |records|
      invariant base.log == log0 + Run(ts, i).calls
      invariant Run(ts, i).error.None?
      invariant indexPaths == PathSet(records[..i])
    {
      var e := CheckoutStagedAt(base, repo, destDir, records, i, log0);
      if e.Some? {
        return e, indexPaths;
      }
      PathSetGrows(records, i);
      indexPaths := indexPaths + {records[i].path};
      i := i + 1;
    }
    assert records[..i] == records;
    err := None;
  }

  /** The set of paths grows by one record's path per iteration. */
  lemma PathSetGrows(records: seq<DiffRecord>, i: nat)
    requires i < |records|
    ensures PathSet(records[..i + 1]) == PathSet(records[..i]) + {records[i].path}
  {
    assert records[..i + 1] == records[..i] + [records[i]];
  }

  /** One staged record: checked out unless unmerged. */
  method CheckoutStagedAt(base: Recorder, repo: Env, destDir: string, records: seq<DiffRecord>, i: nat, ghost log0: seq<Call>)
    returns (err: Option<Error>)
    requires i < |records|
    requires Run(IndexSteps(base.answer, repo, destDir, records), i).error.None?
    requires base.log == log0 + Run(IndexSteps(base.answer, repo, destDir, records), i).calls
    modifies base
    ensures base.log == log0 + Run(IndexSteps(base.answer, repo, destDir, records), i + 1).calls
    ensures err == Run(IndexSteps(base.answer, repo, destDir, records), i + 1).error
    ensures err.Some? ==>
      && base.log == log0 + Steps(IndexSteps(base.answer, repo, destDir, records)).calls
      && err == Steps(IndexSteps(base.answer, repo, destDir, records)).error
  {
    IndexStepsAt(base.answer, repo, destDir, records, i);
    var r := records[i];
    if r.status != "U" {
      var res := Cmd(base, repo, CheckoutIndexArgv(destDir, r.path), None, false);
      err := ErrorOf(res);
      StepAppended(log0, IndexSteps(base.answer, repo, destDir, records), i, base.log);
    } else {
      err := None;
      StepSkipped(log0, IndexSteps(base.answer, repo, destDir, records), i, base.log);
    }
  }

  /** The second phase: read the modified paths, then check out from HEAD
      each one the index did not supply. */
  method WriteHeadPhase(base: Recorder, env: Env, repo: Env, destDir: string, indexPaths: set<string>)
    returns (err: Option<Error>)
    modifies base
    ensures base.log == old(base.log) + HeadPhaseTrace(base.answer, env, repo, destDir, indexPaths).calls
    ensures err == HeadPhaseTrace(base.answer, env, repo, destDir, indexPaths).error
  {
    var out := ReadCmd(base, env, ["git", "diff-index", "-z", "HEAD"]);
    if out.Failure? {
      return Some(out.error);
    }
    var working := IterUndeleted(out.value);
    if working.error.Some? {
      return working.error;
    }
    err := CheckoutFromHead(base, repo, destDir, indexPaths, RecordPaths(working.records));
    AppendAssoc(old(base.log), [WorkingDiffCall(env)], Steps(HeadSteps(base.answer, repo, destDir, indexPaths, RecordPaths(working.records))).calls);
  }

  /** The loop over the modified paths. */
  method CheckoutFromHead(base: Recorder, repo: Env, destDir: string, indexPaths: set<string>, paths: seq<string>)
    returns (err: Option<Error>)
    modifies base
    ensures base.log == old(base.log) + Steps(HeadSteps(base.answer, repo, destDir, indexPaths, paths)).calls
    ensures err == Steps(HeadSteps(base.answer, repo, destDir, indexPaths, paths)).error
  {
    ghost var ts := HeadSteps(base.answer, repo, destDir, indexPaths, paths);
    ghost var log0 := base.log;
    var i := 0;
    while i < |paths|
      invariant 0 <= i <= |paths|
      invariant base.log == log0 + Run(ts, i).calls
      invariant Run(ts, i).error.None?
    {
      var e := CheckoutFromHeadAt(base, repo, destDir, indexPaths, paths, i, log0);
      if e.Some? {
        return e;
      }
      i := i + 1;
    }
    err := None;
  }

  /** One modified path: checked out from HEAD unless the index supplied it. */
  method CheckoutFromHeadAt(base: Recorder, repo: Env, destDir: string, indexPaths: set<string>, paths: seq<string>, i: nat, ghost log0: seq<Call>)
    returns (err: Option<Error>)
    requires i < |paths|
    requires Run(HeadSteps(base.answer, repo, destDir, indexPaths, paths), i).error.None?
    requires base.log == log0 + Run(HeadSteps(base.answer, repo, destDir, indexPaths, paths), i).calls
    modifies base
    ensures base.log == log0 + Run(HeadSteps(base.answer, repo, destDir, indexPaths, paths), i + 1).calls
    ensures err == Run(HeadSteps(base.answer, repo, destDir, indexPaths, paths), i + 1).error
    ensures err.Some? ==>
      && base.log == log0 + Steps(HeadSteps(base.answer, repo, destDir, indexPaths, paths)).calls
      && err == Steps(HeadSteps(base.answer, repo, destDir, indexPaths, paths)).error
  {
    HeadStepsAt(base.answer, repo, destDir, indexPaths, paths, i);
    if paths[i] !in indexPaths {
      err := CheckOutHead(base, repo, paths[i], PathJoin(destDir, paths[i]));
      StepAppended(log0, HeadSteps(base.answer, repo, destDir, indexPaths, paths), i, base.log);
    } else {
      err := None;
      StepSkipped(log0, HeadSteps(base.answer, repo, destDir, indexPaths, paths), i, base.log);
    }
  }

  /** `IndexOrHeadView(repoPath).write(env, destDir)`. */
  method Write(base: Recorder, env: Env, repoPath: string, destDir: string) returns (err: Option<Error>)
    modifies base
    ensures base.log == old(base.log) + WriteTrace(base.answer, env, repoPath, destDir).calls
    ensures err == WriteTrace(base.answer, env, repoPath, destDir).error
  {
    var repo := RepoEnv(env, repoPath);
    var indexPaths;
    err, indexPaths := WriteIndexPhase(base, env, repo, destDir);
    if err.Some? {
      return;
    }
    err := WriteHeadPhase(base, env, repo, destDir, indexPaths);
    AppendAssoc(old(base.log), IndexPhaseTrace(base.answer, env, repo, destDir).calls,
                HeadPhaseTrace(base.answer, env, repo, destDir, indexPaths).calls);
  }
}
