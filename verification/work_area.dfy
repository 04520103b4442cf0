/** `WorkArea`: write both views into a work directory, run the merge tool
    on the two directories, then apply both views back. */
module WorkArea {
  import opened Wrappers
  import opened Text
  import opened Paths
  import opened CmdEnv
  import opened Views
  import IndexWrite
  import IndexApply
  import WorkingWrite

  /** A work area: the env its commands go through and its directory. */
  datatype Area = Area(env: Env, workDir: string)

  /** `view.write(env, dir)` for either view. */
  function ViewWriteTrace(answer: Call -> Reply, env: Env, view: View, dir: string, abspath: string -> string): Trace
  {
    match view
    case WorkingTreeSubset(repoPath) => WorkingWrite.WorkingWriteTrace(answer, env, repoPath, dir, abspath)
    case IndexOrHead(repoPath) => IndexWrite.WriteTrace(answer, env, repoPath, dir)
  }

  /** `view.apply(env, dir)`: the working-tree view applies nothing. */
  function ViewApplyTrace(answer: Call -> Reply, env: Env, view: View, dir: string, abspath: string -> string): Trace
  {
    match view
    case WorkingTreeSubset(_) => Trace([], None)
    case IndexOrHead(repoPath) => IndexApply.ApplyTrace(answer, env, repoPath, dir, abspath)
  }

  /** The directory `_write` gives a view: the work directory joined with
      the view's label (no view's `write` returns a directory of its own). */
  function ViewDir(area: Area, view: View): string
  {
    PathJoin(area.workDir, Label(view))
  }

  function MkdirCall(area: Area, view: View): Call
  {
    Reach(area.env.cmdSide, Call(["mkdir", "-p", ViewDir(area, view)], None, false))
  }

  /** `_write(view)`: create the view's directory, then write the view into it. */
  function WriteViewTrace(answer: Call -> Reply, area: Area, view: View, abspath: string -> string): Trace
  {
    Then(Issue(answer, [], MkdirCall(area, view)), ViewWriteTrace(answer, area.env, view, ViewDir(area, view), abspath))
  }

  /** The env the merge tool runs in: the work directory, and the
      `GIT_DIFF_TOOL` variable when a non-empty tool name is given. */
  function ToolEnv(area: Area, tool: Option<string>): Env
  {
    var inWorkDir := PrefixReadable(InDir(area.workDir), area.env);
    if tool.Some? && tool.value != "" then PrefixReadable(["env", "GIT_DIFF_TOOL=" + tool.value], inWorkDir)
    else inWorkDir
  }

  /** The command run on the two directories: `extcmd` when given (even an
      empty one), else the bundled merge-tool runner. */
  function ToolCommand(extcmd: Option<string>): string
  {
    if extcmd.Some? then extcmd.value else "git-meld-index-run-merge-tool"
  }

  /** `_meld(leftDir, rightDir, tool, extcmd)`: one call, with a tty. */
  function ToolCall(area: Area, leftDir: string, rightDir: string, tool: Option<string>, extcmd: Option<string>): Call
  {
    Reach(ToolEnv(area, tool).cmdSide, Call([ToolCommand(extcmd), leftDir, rightDir], None, true))
  }

  /** The two applies, left first. */
  function ApplyBothTrace(answer: Call -> Reply, area: Area, left: View, right: View, abspath: string -> string): Trace
  {
    Then(ViewApplyTrace(answer, area.env, left, ViewDir(area, left), abspath),
         ViewApplyTrace(answer, area.env, right, ViewDir(area, right), abspath))
  }

  /** `meld(left, right, tool, extcmd)`: write left, write right, run the
      tool, apply left, apply right; the first exception ends it. */
  function MeldTrace(answer: Call -> Reply, area: Area, left: View, right: View, tool: Option<string>, extcmd: Option<string>, abspath: string -> string): Trace
  {
    Then(WriteBothTrace(answer, area, left, right, abspath),
         Then(Issue(answer, [], ToolCall(area, ViewDir(area, left), ViewDir(area, right), tool, extcmd)),
              ApplyBothTrace(answer, area, left, right, abspath)))
  }

  /** The two writes, left first. */
  function WriteBothTrace(answer: Call -> Reply, area: Area, left: View, right: View, abspath: string -> string): Trace
  {
    Then(WriteViewTrace(answer, area, left, abspath), WriteViewTrace(answer, area, right, abspath))
  }

  /** The two views' directories are distinct, so neither view overwrites
      the other, and both are children of the work directory. */
  lemma ViewDirsDistinct(area: Area, left: View, right: View)
    requires left.WorkingTreeSubset? != right.WorkingTreeSubset?
    ensures ViewDir(area, left) != ViewDir(area, right)
    ensures area.workDir != "" && area.workDir[|area.workDir| - 1] != '/' ==>
      DirName(ViewDir(area, left)) == area.workDir && DirName(ViewDir(area, right)) == area.workDir
  {
    LabelChild(area.workDir, Label(left));
    LabelChild(area.workDir, Label(right));
    if area.workDir != "" && area.workDir[|area.workDir| - 1] != '/' {
      assert EnsureTrailingSlash(area.workDir) == area.workDir + "/";
      DirNameOfChild(area.workDir, Label(left));
      DirNameOfChild(area.workDir, Label(right));
    }
  }

  /** A name joined to the work directory ends with that name after a
      slash (or is the name itself for an empty work directory). */
  lemma LabelChild(workDir: string, name: string)
    requires name != "" && '/' !in name
    ensures var d := PathJoin(workDir, name);
      && EndsWith(d, name)
      && (workDir == "" ==> d == name)
      && (workDir != "" ==> d == EnsureTrailingSlash(workDir) + name)
  {
    assert !("/" <= name) by {
      assert name[0] in name;
    }
  }

  /** The merge tool's exit status never aborts a meld: once both views are
      written, the tool runs with a tty and both applies follow, whatever it
      returns. (Under a NullWrapper the tool call becomes a plain `true`
      without a tty, whose failure would raise.) */
  lemma ToolNeverStopsMeld(answer: Call -> Reply, area: Area, left: View, right: View, tool: Option<string>, extcmd: Option<string>, abspath: string -> string)
    requires Null !in area.env.cmdSide
    requires WriteBothTrace(answer, area, left, right, abspath).error.None?
    ensures var t := MeldTrace(answer, area, left, right, tool, extcmd, abspath);
      var toolCall := ToolCall(area, ViewDir(area, left), ViewDir(area, right), tool, extcmd);
      var applies := ApplyBothTrace(answer, area, left, right, abspath);
      && t.calls == WriteBothTrace(answer, area, left, right, abspath).calls + ([toolCall] + applies.calls)
      && t.error == applies.error
  {
    var toolCall := ToolCall(area, ViewDir(area, left), ViewDir(area, right), tool, extcmd);
    ToolCallArgv(area, ViewDir(area, left), ViewDir(area, right), tool, extcmd);
    TtyNeverRaises(answer, toolCall);
    assert Issue(answer, [], toolCall) == Trace([toolCall], None);
  }

  /** A write that raises ends the meld there: the tool never runs and
      nothing is applied. */
  lemma FailedWriteStopsMeld(answer: Call -> Reply, area: Area, left: View, right: View, tool: Option<string>, extcmd: Option<string>, abspath: string -> string)
    ensures var t := MeldTrace(answer, area, left, right, tool, extcmd, abspath);
      var wl := WriteViewTrace(answer, area, left, abspath);
      var wr := WriteViewTrace(answer, area, right, abspath);
      && (wl.error.Some? ==> t == wl)
      && (wl.error.None? && wr.error.Some? ==> t == Trace(wl.calls + wr.calls, wr.error))
  {
  }

  /** Each view's write starts by creating its directory in the work area,
      and the directory is created whatever the view. */
  lemma WriteViewStartsWithMkdir(answer: Call -> Reply, area: Area, view: View, abspath: string -> string)
    ensures var t := WriteViewTrace(answer, area, view, abspath);
      && |t.calls| >= 1 && t.calls[0] == MkdirCall(area, view)
      && (Outcome(answer, MkdirCall(area, view)).Failure? ==> t.calls == [MkdirCall(area, view)] && t.error.Some?)
  {
  }

  /** Applying the working-tree view issues nothing: edits made on that
      side are never written back. */
  lemma WorkingTreeNotApplied(answer: Call -> Reply, env: Env, repoPath: string, dir: string, abspath: string -> string)
    ensures ViewApplyTrace(answer, env, WorkingTreeSubset(repoPath), dir, abspath) == Trace([], None)
  {
  }

  /** What reaches the base when no NullWrapper is in the chain: the env's
      prefixes, the change to the work directory, the `env` assignment when
      a tool is named, then the command and the two directories, with a tty. */
  lemma ToolCallArgv(area: Area, leftDir: string, rightDir: string, tool: Option<string>, extcmd: Option<string>)
    requires Null !in area.env.cmdSide
    ensures ToolCall(area, leftDir, rightDir, tool, extcmd)
      == Call(Prefixes(area.env.cmdSide) + InDir(area.workDir)
                + (if tool.Some? && tool.value != "" then ["env", "GIT_DIFF_TOOL=" + tool.value] else [])
                + [ToolCommand(extcmd), leftDir, rightDir],
              None, true)
  {
    var c := Call([ToolCommand(extcmd), leftDir, rightDir], None, true);
    var chain := ToolEnv(area, tool).cmdSide;
    var envPart := if tool.Some? && tool.value != "" then ["env", "GIT_DIFF_TOOL=" + tool.value] else [];
    if tool.Some? && tool.value != "" {
      assert chain == [Prefix(envPart)] + ([Prefix(InDir(area.workDir))] + area.env.cmdSide);
    } else {
      assert chain == [Prefix(InDir(area.workDir))] + area.env.cmdSide;
    }
    assert Null !in chain;
    ReachWithoutNull(chain, c);
    PrefixesOfWrapped(area.env.cmdSide, InDir(area.workDir));
    if tool.Some? && tool.value != "" {
      PrefixesOfWrapped([Prefix(InDir(area.workDir))] + area.env.cmdSide, envPart);
    } else {
      assert Prefixes(area.env.cmdSide) + InDir(area.workDir) + envPart == Prefixes(area.env.cmdSide) + InDir(area.workDir);
    }
  }

  /** Wrapping a chain in one more prefix appends that prefix to the argv
      the chain puts in front. */
  lemma PrefixesOfWrapped(chain: seq<Layer>, prefix: seq<string>)
    ensures Prefixes([Prefix(prefix)] + chain) == Prefixes(chain) + prefix
  {
    assert ([Prefix(prefix)] + chain)[1..] == chain;
  }

  /** `_write(view)`: returns the directory the view was written to. */
  method WriteView(base: Recorder, area: Area, view: View, abspath: string -> string) returns (dir: string, err: Option<Error>)
    modifies base
    ensures dir == ViewDir(area, view)
    ensures base.log == old(base.log) + WriteViewTrace(base.answer, area, view, abspath).calls
    ensures err == WriteViewTrace(base.answer, area, view, abspath).error
  {
    var suggestedDir := PathJoin(area.workDir, Label(view));
    var r := Cmd(base, area.env, ["mkdir", "-p", suggestedDir], None, false);
    dir := suggestedDir;
    if r.Failure? {
      return dir, Some(r.error);
    }
    ghost var afterMkdir := base.log;
    err := WriteInto(base, area.env, view, suggestedDir, abspath);
    AppendAssoc(old(base.log), [MkdirCall(area, view)], ViewWriteTrace(base.answer, area.env, view, suggestedDir, abspath).calls);
  }

  /** `view.write(env, dir)`, dispatched on the view. */
  method WriteInto(base: Recorder, env: Env, view: View, dir: string, abspath: string -> string) returns (err: Option<Error>)
    modifies base
    ensures base.log == old(base.log) + ViewWriteTrace(base.answer, env, view, dir, abspath).calls
    ensures err == ViewWriteTrace(base.answer, env, view, dir, abspath).error
  {
    match view
    case WorkingTreeSubset(repoPath) =>
      err := WorkingWrite.WorkingWrite(base, env, repoPath, dir, abspath);
    case IndexOrHead(repoPath) =>
      err := IndexWrite.Write(base, env, repoPath, dir);
  }

  /** `_meld(leftDir, rightDir, tool, extcmd)`. */
  method RunTool(base: Recorder, area: Area, leftDir: string, rightDir: string, tool: Option<string>, extcmd: Option<string>)
    returns (err: Option<Error>)
    modifies base
    ensures base.log == old(base.log) + [ToolCall(area, leftDir, rightDir, tool, extcmd)]
    ensures err == ErrorOf(Outcome(base.answer, ToolCall(area, leftDir, rightDir, tool, extcmd)))
  {
    var env := PrefixReadable(InDir(area.workDir), area.env);
    if tool.Some? && tool.value != "" {
      env := PrefixReadable(["env", "GIT_DIFF_TOOL=" + tool.value], env);
    }
    var cmd := if extcmd.Some? then extcmd.value else "git-meld-index-run-merge-tool";
    var r := Cmd(base, env, [cmd, leftDir, rightDir], None, true);
    err := ErrorOf(r);
  }

  /** `_apply(view, dir)`. */
  method ApplyView(base: Recorder, area: Area, view: View, dir: string, abspath: string -> string) returns (err: Option<Error>)
    modifies base
    ensures base.log == old(base.log) + ViewApplyTrace(base.answer, area.env, view, dir, abspath).calls
    ensures err == ViewApplyTrace(base.answer, area.env, view, dir, abspath).error
  {
    match view
    case WorkingTreeSubset(_) =>
      err := None;
      assert old(base.log) + [] == base.log;
    case IndexOrHead(repoPath) =>
      err := IndexApply.Apply(base, area.env, repoPath, dir, abspath);
  }

  /** Both applies, left first. */
  method ApplyBoth(base: Recorder, area: Area, left: View, right: View, abspath: string -> string) returns (err: Option<Error>)
    modifies base
    ensures base.log == old(base.log) + ApplyBothTrace(base.answer, area, left, right, abspath).calls
    ensures err == ApplyBothTrace(base.answer, area, left, right, abspath).error
  {
    err := ApplyView(base, area, left, ViewDir(area, left), abspath);
    if err.Some? {
      return;
    }
    ghost var first := ViewApplyTrace(base.answer, area.env, left, ViewDir(area, left), abspath).calls;
    err := ApplyView(base, area, right, ViewDir(area, right), abspath);
    AppendAssoc(old(base.log), first, ViewApplyTrace(base.answer, area.env, right, ViewDir(area, right), abspath).calls);
  }

  /** Both writes, left first; returns the two directories. */
  method WriteBoth(base: Recorder, area: Area, left: View, right: View, abspath: string -> string)
    returns (leftDir: string, rightDir: string, err: Option<Error>)
    modifies base
    ensures leftDir == ViewDir(area, left) && rightDir == ViewDir(area, right)
    ensures base.log == old(base.log) + WriteBothTrace(base.answer, area, left, right, abspath).calls
    ensures err == WriteBothTrace(base.answer, area, left, right, abspath).error
  {
    rightDir := ViewDir(area, right);
    leftDir, err := WriteView(base, area, left, abspath);
    if err.Some? {
      return;
    }
    ghost var first := WriteViewTrace(base.answer, area, left, abspath).calls;
    rightDir, err := WriteView(base, area, right, abspath);
    AppendAssoc(old(base.log), first, WriteViewTrace(base.answer, area, right, abspath).calls);
  }

  /** `meld(left, right, tool, extcmd)`. */
  method Meld(base: Recorder, area: Area, left: View, right: View, tool: Option<string>, extcmd: Option<string>, abspath: string -> string)
    returns (err: Option<Error>)
    modifies base
    ensures base.log == old(base.log) + MeldTrace(base.answer, area, left, right, tool, extcmd, abspath).calls
    ensures err == MeldTrace(base.answer, area, left, right, tool, extcmd, abspath).error
  {
    var leftDir, rightDir;
    leftDir, rightDir, err := WriteBoth(base, area, left, right, abspath);
    if err.Some? {
      return;
    }
    ghost var writes := WriteBothTrace(base.answer, area, left, right, abspath);
    err := RunTool(base, area, leftDir, rightDir, tool, extcmd);
    ghost var run := Issue(base.answer, [], ToolCall(area, leftDir, rightDir, tool, extcmd));
    if err.Some? {
      MeldLog(old(base.log), writes, run, Trace([], None));
      return;
    }
    err := ApplyBoth(base, area, left, right, abspath);
    MeldLog(old(base.log), writes, run, ApplyBothTrace(base.answer, area, left, right, abspath));
  }

  /** The log of a meld, reassembled: the tool's call follows the writes'
      calls, the applies' calls follow it, and a raising tool ends the meld. */
  lemma MeldLog(log: seq<Call>, writes: Trace, run: Trace, applies: Trace)
    requires writes.error.None?
    ensures var t := Then(writes, Then(run, applies));
      && (run.error.Some? ==> log + writes.calls + run.calls == log + t.calls && run.error == t.error)
      && (run.error.None? ==> log + writes.calls + run.calls + applies.calls == log + t.calls && applies.error == t.error)
  {
    AppendAssoc(log, writes.calls, run.calls);
    if run.error.None? {
      AppendAssoc(log + writes.calls, run.calls, applies.calls);
      AppendAssoc(log, writes.calls, run.calls + applies.calls);
    }
  }
}
