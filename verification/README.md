# git-meld-index, modelled in Dafny

git-meld-index lets a user stage changes to the git index by running a
difftool such as meld on two directories. The left directory holds a copy of
the working-tree changes (the *working* view). The right directory holds a
copy of the index, with HEAD filling in for modified files that are not
staged (the *index* view). When the tool exits, everything under the right
directory is written back to the index.

This project models the core of that program and proves properties of the
model:

- **Command environments** (`cmd_env.dfy`). `BasicEnv`, `ReadableEnv`,
  `PrefixCmdEnv`, `NullWrapper` and `VerboseWrapper` become chains of
  decorators in front of a base environment. The base is a `Recorder` object
  whose `log` receives every call that reaches it. It answers each call from
  a fixed oracle `answer: Call -> Reply` (exit status and standard output).
  `BasicEnv.cmd`'s rule for raising is kept: a call with a tty never raises.
- **Diff records** (`diff_records.dfy`). These are `parse_raw_diff`,
  `pairwise`, `iter_diff_records` and `iter_diff_records_undeleted`. A
  generator is modelled as the records it yields before it raises, plus what
  it raises.
- **Views** (`views.dfy`, `working_write.dfy`, `index_write.dfy`,
  `head_checkout.dfy`, `index_apply.dfy`). These are `make_view`,
  `make_git_permission_string`, `ensure_trailing_slash` (`paths.dfy`, with
  the `os.path` helpers), and both views' `write` and `apply`, including
  `check_out_head`.
  - Every imperative operation is a method on the `Recorder`. Its `ensures`
    says the log grew by exactly the calls of a *trace*, and that it raised
    exactly the trace's error.
  - A trace is a pure function of the oracle. The lemmas state the program's
    rules about it: which commands are issued, in which order, and where a
    failure stops the run.
- **`WorkArea.meld`** (`work_area.dfy`). Write left, write right, run the
  tool, apply left, apply right.
- **`Cleanups` and `NullCleanups`** (`cleanups.dfy`). These are classes whose
  methods update the stack of registered functions and the record of calls
  made.
- **`list_tree`** (`list_tree.dfy`). The rendering of a directory tree is
  modelled over a tree datatype. The partition loop is a method.
- **`read_version` of setup.py** (`setup_version.dfy`). A loop over the
  file's lines, with `ast.literal_eval` as a parameter.

`text.dfy` holds the Python string operations the code relies on: `split`
with one separator, `join`, `partition`, `strip`, `lstrip`, `rstrip`,
`removeprefix` and `removesuffix`. `wrappers.dfy` holds `Option`, `Result`
and the exceptions that can be raised.

Where the design description of the system and the code disagree, the model
follows the code. The description says that a nonzero exit from the external
tool aborts the session before anything is applied. In the code, however,
the tool runs with `tty=True`, and `BasicEnv.cmd` never checks the exit
status of such a call (src/git_meld_index.py:73-75 and 199). So both applies
follow whatever the tool returns: see `WorkArea.ToolNeverStopsMeld`.

Both diff-index reads of `IndexOrHeadView.write` go through the caller's env
(src/git_meld_index.py:382-383 and 404-405), not through the env prefixed
with the repository directory. The model keeps that: `IndexWrite.CachedDiffCall`
and `IndexWrite.WorkingDiffCall` take the caller's env.

## Model

| member | source | states |
|---|---|---|
| CmdEnv.ReachAppend | src/git_meld_index.py:119-141 | Passing a call through two decorator chains, one after the other, is the same as passing it through their concatenation. |
| CmdEnv.ReachWithoutNull | src/git_meld_index.py:130-158 | Without a NullWrapper, a chain only puts argv in front of the call: each PrefixCmdEnv's prefix, innermost first. stdin and the tty flag reach the base unchanged, and VerboseWrapper forwards the call as it is. |
| CmdEnv.NullSwallows | src/git_meld_index.py:161-167 | Once a NullWrapper is in a chain, what reaches the base does not depend on the call made. It is a bare `["true"]`, with no stdin and no tty, sent on through the layers below the NullWrapper. |
| CmdEnv.WrapReach | src/git_meld_index.py:119-127 | `ReadableEnv.wrap` puts the same decorator outermost on both the `cmd` side and the `read_cmd` side. |
| CmdEnv.NullReadableReach | src/git_meld_index.py:169-171 | Under `NullWrapper.make_readable`, every `cmd` reaches the wrapped env as `true`. Every `read_cmd` reaches it unchanged, through the wrapped env's mutating side. |
| CmdEnv.PrefixReadable | src/git_meld_index.py:139-141 | `PrefixCmdEnv.make_readable`: the prefix layer outermost on both sides. |
| CmdEnv.VerboseReadable | src/git_meld_index.py:156-158 | `VerboseWrapper.make_readable`: the verbose layer outermost on both sides. |
| CmdEnv.NullReadable | src/git_meld_index.py:169-171 | `NullWrapper.make_readable`: a NullWrapper over the env's mutating side, and the env itself as the read side. Its property is `NullReadableReach`. |
| CmdEnv.EnvFromArguments | src/git_meld_index.py:529-535 | `get_env_from_arguments`: BasicEnv, under a NullWrapper for `--pretend`, then under a VerboseWrapper for `--verbose`. Its property is `PretendIsDryRun`. |
| CmdEnv.PretendIsDryRun | src/git_meld_index.py:529-535 | With `--pretend`, every mutating call reaches the base as `true`, while reads reach it unchanged. Without `--pretend`, both sides pass every call through unchanged, with or without `--verbose`. |
| CmdEnv.InDir | src/git_meld_index.py:47-48 | `in_dir(dir)` is a five-element shell prefix whose last element is the directory. |
| CmdEnv.TtyNeverRaises | src/git_meld_index.py:73-75 | A call made with a tty succeeds with no output, whatever its exit status. |
| CmdEnv.ShellQuote | src/git_meld_index.py:174-175 | `shlex.quote`: "''" for the empty string, the string itself when every character is safe, otherwise the string in single quotes with each quote escaped. |
| CmdEnv.ShellEscape | src/git_meld_index.py:174-175 | `shell_escape`: the quoted arguments joined by single spaces. |
| CmdEnv.Recorder.Run | src/git_meld_index.py:65-90 | The base env logs the call. A nonzero exit without a tty raises CalledProcessError; otherwise the call yields its stdout. |
| CmdEnv.Cmd | src/git_meld_index.py:112-113 | `cmd` sends the call down the mutating chain. The log grows by exactly the call that reaches the base, and the result is the base's answer to that call. |
| CmdEnv.ReadCmd | src/git_meld_index.py:115-117 | `read_cmd` sends the call down the reading chain, with no stdin and no tty. |
| CmdEnv.TryCmd | src/git_meld_index.py:51-57 | `try_cmd` returns true exactly when the one call it makes through the mutating chain does not raise. |
| Paths.EnsureTrailingSlash | src/git_meld_index.py:317-320 | The result ends in "/", extends the path by at most one character, and equals the path when the path already ends in "/". |
| Paths.EnsureTrailingSlashIdempotent | src/git_meld_index.py:317-320 | Applying `ensure_trailing_slash` twice is the same as applying it once. |
| Paths.PathJoin | src/git_meld_index.py:409 | `os.path.join(a, b)`: an absolute `b` replaces `a`; otherwise `b` follows `a` after exactly one "/" (none when `a` is empty). |
| Paths.DirName | src/git_meld_index.py:303-304 | `os.path.dirname`: everything up to the last "/", with trailing slashes removed unless it is all slashes. Its properties are `DirNameSpec` and `DirNameOfChild`. |
| Paths.DirNameSpec | src/git_meld_index.py:303-304 | A path without "/" has no directory part. A directory part that ends in "/" is all slashes. Only slashes lie between the directory part and the last "/". |
| Paths.DirNameOfChild | src/git_meld_index.py:355-357 | The directory of `dir/name`, where `name` has no "/", is `dir`. |
| DiffRecords.ParseRawDiff | src/git_meld_index.py:227-231 | `parse_raw_diff`: the descriptor without its leading ":" splits on spaces into exactly five fields, else ValueError. Its properties are `ParseRawDiffKeepsFields` and `FormatParseRoundTrip`. |
| DiffRecords.ParseRawDiffKeepsFields | src/git_meld_index.py:227-231 | A parsed descriptor is the record's five fields joined by single spaces, with the one leading ":" that was removed, if there was one. No field holds a space. |
| DiffRecords.FormatParseRoundTrip | src/git_meld_index.py:227-231 | Parsing the descriptor git writes for a record whose fields hold no space gives the record back. |
| DiffRecords.Pairwise | src/git_meld_index.py:222-224 | `pairwise` yields half as many pairs as there are elements, so a dangling last element is dropped. |
| DiffRecords.PairwiseAt | src/git_meld_index.py:222-224 | Pair `i` is made of elements `2i` and `2i+1`. |
| DiffRecords.ParsePairs | src/git_meld_index.py:238-239 | At most one record is yielded per pair. It fails exactly when fewer records than pairs were yielded, and then with a ValueError. |
| DiffRecords.ParsePairsYields | src/git_meld_index.py:238-239 | Record `i` is the parse of pair `i`, in output order. A failure is the parse failure of the first pair not yielded. |
| DiffRecords.IterDiffRecordsAsserts | src/git_meld_index.py:234-237 | The assertion fails, with nothing yielded, exactly when the output is neither empty nor NUL-terminated. |
| DiffRecords.IterDiffRecords | src/git_meld_index.py:234-239 | `iter_diff_records` as the records it yields and what it raises: the NUL assertion, then the parse of each pair of fields. Its properties are `IterDiffRecordsAsserts` and `IterDiffRecordsRoundTrip`. |
| DiffRecords.IterUndeleted | src/git_meld_index.py:242-245 | `iter_diff_records_undeleted`: the same stream without the records whose status is "D". Its property is `UndeletedMembers`. |
| DiffRecords.UndeletedMembers | src/git_meld_index.py:242-245 | The undeleted records are exactly the records whose status is not "D". |
| DiffRecords.UndeletedAppend | src/git_meld_index.py:242-245 | The filter distributes over concatenation, so record order is kept. |
| DiffRecords.ParsePairsOfFormatted | src/git_meld_index.py:238-239 | Pairs formatted from well-formed records parse back into exactly those records, with no error. |
| DiffRecords.IterDiffRecordsRoundTrip | src/git_meld_index.py:234-239 | Reading back the NUL-terminated output git writes for well-formed records yields exactly those records, in order, with no error. |
| Views.Label | src/git_meld_index.py:280-345 | A view's label is non-empty and has no "/". It is "working_tree" exactly for the working-tree view. |
| Views.MakeView | src/git_meld_index.py:501-519 | `make_view`: the view named by the selector's scheme, or UnknownURISchemeError. Its properties are `MakeViewSpec` and `MakeViewOfSelector`. |
| Views.MakeViewSpec | src/git_meld_index.py:501-519 | Selectors starting with "working:" or "index:" give that view, with the rest (even holding more colons) as the path, and "." when the rest is empty. Any other selector raises UnknownURISchemeError naming the text before the first colon, or the whole selector when it has no colon (so a bare "working" is rejected). |
| Views.MakeViewAfterScheme | src/git_meld_index.py:502-505 | A selector starting with a known scheme and a colon is cut at that colon. |
| Views.MakeViewUnknown | src/git_meld_index.py:516-519 | Any other selector raises the unknown-scheme error, naming the text before the first colon. |
| Views.MakeViewOfSelector | src/git_meld_index.py:501-515 | Every view with a non-empty path is built back from its own selector. |
| Views.PermissionString | src/git_meld_index.py:323-327 | A link gives "120000" whatever its executable bit. Otherwise the result is "100755" exactly when the file is executable, and "100644" when it is not. |
| Views.PermissionReadBack | src/git_meld_index.py:358-377 | A staged mode is read back by `check_out_head` as the same kind of file: a link as a symlink, a regular file with its executable bit. |
| Views.StripDotSlash | src/git_meld_index.py:420-421 | Exactly one leading "./" is removed, when present; other paths are unchanged. |
| Views.IndexInfoLineFields | src/git_meld_index.py:426-431 | The index-info line is the permission, a space, the hash without its trailing newline, a tab, then the path. These read back as the same three parts, whatever the path holds. |
| Views.ParseLsTreeAsWritten | src/git_meld_index.py:352-354 | As written, the ls-tree line is accepted exactly when it splits on spaces into three fields, and the third splits on tabs into two. Anything else is a ValueError. |
| Views.LsTreeAsWrittenAgrees | src/git_meld_index.py:352-354 | As written, an entry whose path holds no space or tab is read as its mode and object name. |
| Views.LsTreeAsWrittenRejectsSpace | src/git_meld_index.py:353-354 | As written, an entry whose path holds a space is rejected, although the intended reading accepts it. |
| Views.LsTreeRoundTrip | src/git_meld_index.py:352-354 | Read as intended, every entry git prints is read back as its mode and object name, whatever its path holds. |
| HeadCheckout.CheckOutHeadReadsFirst | src/git_meld_index.py:350-354 | The ls-tree read is the first call and the only read. A failed read ends the checkout; otherwise the materialisation of the entry follows, with the line read as intended (`Views.ParseLsTree`, see Findings). |
| HeadCheckout.MaterialiseOrder | src/git_meld_index.py:353-357 | A malformed entry issues nothing more. Otherwise the parent directory is created before the mode is looked at, and the action runs only if that succeeds. |
| HeadCheckout.ActionByMode | src/git_meld_index.py:358-377 | Mode 160000 issues nothing. Mode 120000 reads the blob, then creates a symlink whose target is the blob's text. Mode 100755 writes the blob, then runs `chmod +x`. Any other mode writes the blob only. |
| HeadCheckout.CheckOutHeadTrace | src/git_meld_index.py:350-377 | The calls of `check_out_head` and its error: the ls-tree read, then the materialisation of the entry read as intended. Its properties are `CheckOutHeadReadsFirst`, `MaterialiseOrder` and `ActionByMode`. |
| HeadCheckout.CheckOutHeadAsWrittenTrace | src/git_meld_index.py:350-377 | The same calls, with the ls-tree line read by the space split of line 353 (`Views.ParseLsTreeAsWritten`). |
| HeadCheckout.SpacedPathStopsAsWritten | src/git_meld_index.py:350-357 | For a HEAD entry whose path holds a space, `check_out_head` as written issues only the ls-tree read and raises a ValueError. The intended checkout goes on to `mkdir -p` the destination's parent. |
| HeadCheckout.CheckOutHead | src/git_meld_index.py:350-377 | `check_out_head`, with its ls-tree line read as intended, issues exactly the calls of its trace and raises exactly its error. |
| HeadCheckout.Materialise | src/git_meld_index.py:353-377 | Parsing the entry, creating the parent and acting on the mode issue exactly the materialisation trace's calls. |
| HeadCheckout.MakeParent | src/git_meld_index.py:355-357 | `mkdir -p` of the destination's parent is issued only when it has one. |
| HeadCheckout.Act | src/git_meld_index.py:358-377 | The mode-dependent commands are issued exactly as the action trace says. |
| IndexApply.ApplyTrace | src/git_meld_index.py:412-431 | The calls and the error of the index view's `apply`: `find`, then one staging step per found file. Its properties are the `IndexApply` lemmas below. |
| IndexApply.ApplyChecksTerminator | src/git_meld_index.py:416-418 | Unless `find`'s output is empty or ends with a NUL, apply stops with an AssertionError right after `find`, and nothing is staged. |
| IndexApply.ApplyOfFindOutput | src/git_meld_index.py:416-419 | When `find` prints some files, each followed by a NUL, exactly those files are staged, in `find`'s order. |
| IndexApply.ApplyStepHashesFirst | src/git_meld_index.py:420-426 | Per file: the `test -h` and `test -x` probes come first, then one `hash-object -w` of the file with a leading "./" removed. If hashing fails, nothing more is issued. |
| IndexApply.ApplyStepStaged | src/git_meld_index.py:423-431 | A file staged without error issued exactly four calls. The last stages it under the probed permission and the hash without its newline. A link is staged as 120000. |
| IndexApply.ApplyStagesEach | src/git_meld_index.py:419-431 | When every file is staged, the log holds four calls per file, in `find`'s order. Calls `4k+2` and `4k+3` hash file `k` and stage it. |
| IndexApply.ApplyOne | src/git_meld_index.py:420-431 | One found path is probed, hashed and staged, exactly as its step says. |
| IndexApply.HashFile | src/git_meld_index.py:423-426 | The probes and the hashing are issued in order. The permission is the probed one, and the hash is `hash-object`'s result. |
| IndexApply.ApplyAt | src/git_meld_index.py:419-431 | Iteration `i` of the loop extends the log by step `i`'s calls. When step `i` raises, the log and the error are those of the whole run. |
| IndexApply.ApplyAll | src/git_meld_index.py:419-431 | The loop issues each step in turn and stops at the first that raises. |
| IndexApply.Apply | src/git_meld_index.py:412-431 | `IndexOrHeadView.apply` issues exactly the calls of its trace and raises exactly its error. |
| IndexWrite.IndexRunCalls | src/git_meld_index.py:385-401 | The first `n` staged records issue a prefix of the checkouts of those among them that are not unmerged, and all of them when none fails. |
| IndexWrite.IndexStepsCalls | src/git_meld_index.py:385-401 | The first phase checks out every staged record that is not unmerged, in order, and never an unmerged one. |
| IndexWrite.StagedNotFromHead | src/git_meld_index.py:401-410 | A staged path, unmerged or not, is never taken from HEAD. |
| IndexWrite.UnstagedFromHead | src/git_meld_index.py:407-410 | A modified path that was not staged is checked out from HEAD under the destination directory, starting with its ls-tree read. |
| IndexWrite.CheckoutCalls | src/git_meld_index.py:384-401 | The reference list of the first phase's calls: one `checkout-index --prefix=` per staged record that is not unmerged, in order. `IndexStepsCalls` ties the loop's steps to it. |
| IndexWrite.WriteTrace | src/git_meld_index.py:379-410 | The calls and the error of `IndexOrHeadView.write`: the first phase, then the second. Its properties are the `IndexWrite` lemmas above. |
| IndexWrite.CheckoutPrefixIsDirectory | src/git_meld_index.py:381-400 | Every `checkout-index --prefix=` names the destination with exactly one trailing "/". |
| IndexWrite.WriteIndexPhase | src/git_meld_index.py:382-401 | The first phase issues exactly its trace's calls. When it does not raise, `index_paths` holds every undeleted staged path. |
| IndexWrite.CheckoutStaged | src/git_meld_index.py:384-401 | The loop over the staged records issues each step in turn. When it does not raise, `index_paths` is the set of all their paths, unmerged ones included. |
| IndexWrite.CheckoutStagedAt | src/git_meld_index.py:399-401 | One staged record is checked out unless unmerged, as step `i` of the run. |
| IndexWrite.WriteHeadPhase | src/git_meld_index.py:404-410 | The second phase reads all modified paths first, then checks out from HEAD each one the index did not supply, each checkout reading its ls-tree line as intended. |
| IndexWrite.CheckoutFromHead | src/git_meld_index.py:407-410 | The loop over the modified paths issues each step in turn and stops at the first that raises. |
| IndexWrite.CheckoutFromHeadAt | src/git_meld_index.py:408-410 | One modified path is checked out from HEAD unless it is in `index_paths`, as step `i` of the run. |
| IndexWrite.Write | src/git_meld_index.py:379-410 | `IndexOrHeadView.write`, with each checkout from HEAD reading its ls-tree line as intended, issues exactly the calls of its trace and raises exactly its error. |
| WorkingWrite.WorkingWriteTrace | src/git_meld_index.py:285-311 | The calls and the error of the working-tree view's `write`: the untracked read and copies, the modified read and copies, then `chmod`. Its properties are `WorkingWriteComplete` and `MalformedStopsBeforeChmod`. |
| WorkingWrite.UntrackedOfListing | src/git_meld_index.py:285-288 | Names printed by `ls-files -z`, each followed by a NUL, come back as the untracked list. A trailing name with no NUL after it is dropped. |
| WorkingWrite.ReadUntracked | src/git_meld_index.py:285-288 | The untracked list is one read, and a failed read raises its error. |
| WorkingWrite.CopyStepCalls | src/git_meld_index.py:302-307 | One copy creates the parent directory, when there is one, before `cp -Pp`. Nothing follows a failure. |
| WorkingWrite.CopyStepsCalls | src/git_meld_index.py:302-307 | Copying issues a prefix of every path's copy calls, and all of them when no copy fails. |
| WorkingWrite.ModifiedComplete | src/git_meld_index.py:290-311 | A modified part that raises nothing is the read, a copy of every undeleted record's path, then `chmod -R a-w` last. |
| WorkingWrite.WorkingWriteComplete | src/git_meld_index.py:295-311 | A write that raises nothing reads the untracked list, copies every untracked file, reads the modified records, copies every undeleted one, and makes the copies read-only last. |
| WorkingWrite.MalformedStopsBeforeChmod | src/git_meld_index.py:290-311 | A malformed modified record stops the write after the copies before it. The copies are never made read-only. |
| WorkingWrite.CopyOne | src/git_meld_index.py:303-307 | One path's copy issues exactly its step's calls. |
| WorkingWrite.CopyAt | src/git_meld_index.py:302-307 | Iteration `i` of a copy loop extends the log by step `i`'s calls. When step `i` raises, the log and the error are those of the whole run. |
| WorkingWrite.CopyAll | src/git_meld_index.py:302-307 | The copy loop issues each step in turn and stops at the first that raises. |
| WorkingWrite.CopyModified | src/git_meld_index.py:290-311 | The modified paths are read, copied as they are yielded, then `chmod` is issued, exactly as the trace says. |
| WorkingWrite.WorkingWrite | src/git_meld_index.py:295-311 | `StageableWorkingTreeSubsetView.write` issues exactly the calls of its trace and raises exactly its error. |
| WorkArea.ViewDirsDistinct | src/git_meld_index.py:184-190 | The two views get distinct directories, both children of the work directory. |
| WorkArea.LabelChild | src/git_meld_index.py:185 | A label joined to the work directory is the directory, one "/", then the label. |
| WorkArea.WriteViewStartsWithMkdir | src/git_meld_index.py:184-190 | `_write` first runs `mkdir -p` of the view's directory. If that fails, nothing else is issued. |
| WorkArea.FailedWriteStopsMeld | src/git_meld_index.py:204-209 | A write that raises ends the meld: the tool never runs, and nothing is applied. |
| WorkArea.ToolNeverStopsMeld | src/git_meld_index.py:192-209 | Once both views are written, the log holds the tool's call, then both applies, whatever the tool returns. |
| WorkArea.ToolCallArgv | src/git_meld_index.py:192-199 | The tool's argv at the base is the env's prefixes, `in_dir(work_dir)`, `env GIT_DIFF_TOOL=<tool>` only for a non-empty tool, then `extcmd` (or `git-meld-index-run-merge-tool` when it is None) and the two directories, with a tty. |
| WorkArea.PrefixesOfWrapped | src/git_meld_index.py:139-141 | Wrapping a chain in one more prefix appends that prefix to the argv the chain puts in front. |
| WorkArea.WorkingTreeNotApplied | src/git_meld_index.py:313-314 | Applying the working-tree view issues nothing. |
| WorkArea.WriteView | src/git_meld_index.py:184-190 | `_write` returns the suggested directory, because neither view's `write` returns one. It issues exactly the mkdir and the write. |
| WorkArea.WriteInto | src/git_meld_index.py:187 | `view.write` is dispatched on the view. |
| WorkArea.RunTool | src/git_meld_index.py:192-199 | `_meld` issues the tool's one call, and raises only as the base does for it. |
| WorkArea.ApplyView | src/git_meld_index.py:201-202 | `_apply` dispatches `view.apply`. |
| WorkArea.ApplyBoth | src/git_meld_index.py:208-209 | Left is applied, then right, unless the left apply raises. |
| WorkArea.WriteBoth | src/git_meld_index.py:205-206 | Left is written, then right. It returns their directories. |
| WorkArea.Meld | src/git_meld_index.py:204-209 | `meld` issues write left, write right, the tool, apply left and apply right, in that order, and the first exception ends it. The index view's write reads ls-tree lines as intended. |
| WorkArea.MeldTrace | src/git_meld_index.py:184-209 | The calls and the error of `meld`: both writes, the tool, then both applies. Its properties are `FailedWriteStopsMeld` and `ToolNeverStopsMeld`. |
| Cleanups.Reversed | src/git_meld_index.py:453-460 | Call order: the element at position `i` is the one registered at position `n-1-i`. |
| Cleanups.AnyRaises | src/git_meld_index.py:452-462 | True exactly when some registered function raises. |
| Cleanups.ReversedAppend | src/git_meld_index.py:453-460 | Two batches registered one after the other are called second batch first, each newest first. |
| Cleanups.LastAddedFirstCalled | src/git_meld_index.py:439-460 | The function registered last is called first. |
| Cleanups.AnyRaisesAppend | src/git_meld_index.py:452-462 | Failure is decided over all the functions, not only those before the first failure. |
| Cleanups.Cleanups.constructor | src/git_meld_index.py:436-437 | It starts with nothing registered and nothing called. |
| Cleanups.Cleanups.AddCleanup | src/git_meld_index.py:439-445 | `func` is pushed, and nothing is called. |
| Cleanups.Cleanups.CleanUp | src/git_meld_index.py:447-462 | Every registered function is called, newest first, even after one raises. The stack ends empty. It raises exactly when one of the calls raised, and only after all of them. A second call does nothing. |
| Cleanups.Cleanups.Exit | src/git_meld_index.py:467-468 | `__exit__` cleans up. |
| Cleanups.NullCleanups.Exit | src/git_meld_index.py:479-480 | Nothing runs and nothing raises. |
| ListTree.DefaultSkip | src/list_tree.py:13 | What `re.match` does with the default skip pattern: a name starting with `.svn` or `__pycache__`, a dot-free stem followed by `.pyc` or `.pyo`, or `~` or `$py.class` after a newline-free start. Its property is `DefaultSkipsCompiled`. |
| ListTree.DefaultSkipsCompiled | src/list_tree.py:13 | The default pattern skips compiled modules (`x.pyc`, `x.pyo`) and editor backups (`x~`). |
| ListTree.NameLeTotal | src/list_tree.py:31 | The name order is total. |
| ListTree.NameLeTrans | src/list_tree.py:31 | The name order is transitive. |
| ListTree.Insert | src/list_tree.py:31 | Insertion adds exactly the one entry. |
| ListTree.InsertSorted | src/list_tree.py:31 | Insertion keeps a sorted list sorted. |
| ListTree.SortByName | src/list_tree.py:30-31 | `names.sort()` gives a permutation of the names, in ascending code-point order. |
| ListTree.Partition | src/list_tree.py:32-40 | The loop puts in `dirs` the names that are not skipped and are non-symlink directories, and in `nondirs` the other names not skipped, both in the sorted order. |
| ListTree.DirsMembers | src/list_tree.py:33-38 | `dirs` holds exactly the listed directories. |
| ListTree.NonDirsMembers | src/list_tree.py:33-40 | `nondirs` holds exactly the listed entries that are not directories, symlinks to directories included. |
| ListTree.GroupsSorted | src/list_tree.py:30-40 | Both groups of the sorted names are sorted. |
| ListTree.GroupsSpec | src/list_tree.py:32-40 | Each group keeps exactly the listed entries of its kind, sorted when the input is. |
| ListTree.Ordered | src/list_tree.py:34-35 | An entry is listed exactly when it is in the directory and its name is not skipped. |
| ListTree.OrderedSpec | src/list_tree.py:42-44 | All non-directories come before all directories, and each group is in name order. |
| ListTree.GroupsInOrder | src/list_tree.py:42-44 | Sorted non-directories followed by sorted directories keep both orders. |
| ListTree.Indented | src/list_tree.py:53-54 | Every subtree line gets the branch indent in front. |
| ListTree.EntryLinesShape | src/list_tree.py:45-59 | A directory shows as `<ind><name>/`, followed by its own listing with the branch indent on every line. A symlink, even to a directory, shows as `<ind><name> -> <target>`, and anything else as `<ind><name>`; both are one line. |
| ListTree.EntryLines | src/list_tree.py:45-59 | `ls_entry`: the lines of one entry. Its properties are `EntryLinesShape`, `EntryLineCount` and `EntryNoNewline`. |
| ListTree.DirLines | src/list_tree.py:25-66 | `_ls_tree_lines`: the lines of a directory, from its sorted, partitioned, ordered entries. Its properties are `DirLineCount` and `EmptyDirNoLines`. |
| ListTree.LsTree | src/list_tree.py:16-22 | `ls_tree`: the directory's lines joined by newlines, plus a final newline. Its properties are `LsTreeText` and `LsTreeEmpty`. |
| ListTree.RenderIndents | src/list_tree.py:60-66 | The last entry is drawn with the last-entry indents, and every other entry with the plain indents. |
| ListTree.EmptyDirNoLines | src/list_tree.py:60-66 | An empty directory, or one whose names are all skipped, contributes no lines. |
| ListTree.ReachAllSkipped | src/list_tree.py:33-35 | Skipped names account for no lines. |
| ListTree.ReachAllSorted | src/list_tree.py:30-31 | Sorting does not change what is reachable. |
| ListTree.ReachAllGroups | src/list_tree.py:32-40 | Splitting the names into the two groups does not change what is reachable. |
| ListTree.OrderedReach | src/list_tree.py:30-44 | The listed order reaches exactly what the directory does. |
| ListTree.EntryLineCount | src/list_tree.py:45-59 | An entry has one line for itself, plus one per entry listed beneath it. |
| ListTree.DirLineCount | src/list_tree.py:25-66 | A directory's listing has one line per non-skipped entry reachable through non-symlink directories. |
| ListTree.RenderLineCount | src/list_tree.py:60-66 | Rendering the entries gives one line per entry reachable from them. |
| ListTree.EntryNoNewline | src/list_tree.py:45-59 | With no newline in names, targets or indents, no entry line holds a newline. |
| ListTree.JoinThenNewline | src/list_tree.py:20-22 | Joining with newlines and adding a final newline ends every line with one. |
| ListTree.LinesText | src/list_tree.py:20-22 | Newline-free lines, joined and terminated, split back into the lines plus an empty last field. |
| ListTree.LsTreeText | src/list_tree.py:16-22 | An empty listing renders as a lone newline. Otherwise splitting the text on newlines gives back the lines and an empty last field. |
| ListTree.LsTreeEmpty | src/list_tree.py:16-22 | An empty directory renders as "\n". |
| SetupVersion.VersionOf | setup.py:14-29 | The reference definition of `read_version`: the first kept line must be the version assignment, whose quoted value is evaluated. Its properties are `SkippedLinesIgnored`, `LaterLinesIgnored`, `NotFoundCases` and `HeaderAccepted`. |
| SetupVersion.FirstKept | setup.py:16-25 | The index found is of the first line that is not blank, a comment or a `__future__` import. Every line before it is of those kinds, and when none is found, every line is. |
| SetupVersion.ReadVersion | setup.py:14-29 | The scan returns what `VersionOf` says: skip, stop at the first other line, raise unless it is the version assignment, and raise when the lines run out. |
| SetupVersion.FirstKeptIs | setup.py:16-25 | The scan stops at the first line that is not skipped. |
| SetupVersion.FirstKeptNone | setup.py:26-27 | When every line is skipped, no line is found. |
| SetupVersion.SkippedLinesIgnored | setup.py:17-21 | Blank lines, comments and `__future__` imports before the version line do not change the result. |
| SetupVersion.LaterLinesIgnored | setup.py:22-25 | No line after the first kept one is examined. |
| SetupVersion.NotFoundCases | setup.py:22-27 | With no lines, only skipped lines, or a first kept line that is not `__version__ = `, the exception is raised. |
| SetupVersion.RStripSpaces | setup.py:28 | `rstrip` removes exactly the trailing white space. |
| SetupVersion.QuotedValue | setup.py:28-29 | The text evaluated is what follows `__version__ = `, without trailing white space. |
| SetupVersion.CommentSkipped | setup.py:17-19 | A comment line is skipped. |
| SetupVersion.VersionLineKept | setup.py:17-23 | The version assignment is never skipped. |
| SetupVersion.HeaderAccepted | src/git_meld_index.py:1-3 | Two comment lines, then `__version__ = "0.0.0"`, is accepted: the value is the literal `"0.0.0"`, whatever follows. |
| Text.SplitLastEmpty | src/git_meld_index.py:236-237 | The last field of a split is empty exactly when the text is empty or ends with the separator. |
| Text.JoinSplit | src/git_meld_index.py:228 | Joining a split with the same separator gives the text back. |
| Text.SplitJoin | src/git_meld_index.py:228 | Splitting undoes joining when no field holds the separator. |
| Text.TerminatedFields | src/git_meld_index.py:417-419 | Splitting NUL-terminated fields leaves an empty last field, preceded by the fields printed. |
| Text.PartitionSpec | src/git_meld_index.py:502 | `partition`'s three parts make up the text. The separator is either found at its first occurrence, or absent, and then everything is in the first part. |
| Text.RemovePrefix | src/git_meld_index.py:229 | `removeprefix` removes the prefix once when present, and otherwise changes nothing. |
| Text.RemoveSuffix | src/git_meld_index.py:427 | `removesuffix` removes the suffix once when present, and otherwise changes nothing. |
| Text.LStripSpec | setup.py:17 | `lstrip` removes exactly the leading white space. |
| Text.RStripSpec | setup.py:28 | `rstrip` removes exactly the trailing white space. |

## Left out

- Process execution is not modelled: `BasicEnv.cmd`'s subprocess, pipes and waiting. Each command's exit status and stdout come from the oracle `answer`, and stderr is not modelled. Bytes are decoded text from the start.
- VerboseWrapper's printing is not modelled. Its layer forwards every call unchanged.
- The `test -h` and `test -x` probes of `apply` are answered by the oracle like every other call.
- What git does with each command (the contents of the index, the object store, the files copied) is not modelled. The model states which commands are issued, in which order, and what is read back.
- `os.path.abspath` depends on the process's working directory. It is the parameter `abspath`.
- `ast.literal_eval` is the parameter `eval` of `SetupVersion.ReadVersion`. Opening the file is not modelled: its lines are the input.
- `shell_escape` and `shlex.quote` are written after the Python library's documented definition (`CmdEnv.ShellQuote`, `CmdEnv.ShellEscape`). No property of the quoting is proved: the shell command that writes a regular file from HEAD is treated as an opaque argument vector.
- `TempMaker`, `tempfile.mkdtemp`, `chmod_and_rmtree` and `shutil.rmtree` are left out as file-system plumbing. A temporary directory registers one cleanup, which is any `Cleanups.Action`.
- The command line is left out: argparse, atexit registration, `KeyboardInterrupt` handling, the `--gui` configuration lookup and the choice of work directory. `CmdEnv.EnvFromArguments` models only `get_env_from_arguments`.
- release.py is left out. It is release automation that depends on modules that are not part of this model.
- The `log.exception` call in `clean_up` is not modelled.
- Cleanups.Cleanups.CleanUp: only whether it raises at the end is modelled. The bare `raise` re-raises the exception being handled, or raises a RuntimeError when there is none, and which one is not captured.
- Cleanups.NullCleanups.AddCleanup has no contract: the object has no state, so nothing can change.
- list_tree reads the file system with `os.getcwd`, `os.listdir`, `os.path.islink`, `os.path.isdir` and `os.readlink`. These are replaced by a tree of `ListTree.Entry` values. The default `dir_path=""` (the current directory) is the root passed in.
- The skip pattern is any predicate on names. `ListTree.DefaultSkip` writes out what `re.match` does with the default pattern; no regular-expression engine is modelled.
- WorkArea.ToolNeverStopsMeld: holds only for envs without a NullWrapper. Under `--pretend` the tool call reaches the base as a plain `true` without a tty, whose failure would raise.
- HeadCheckout.CheckOutHead: reads the ls-tree line as intended (`Views.ParseLsTree`), not with the space split of src/git_meld_index.py:353. For a HEAD entry whose path holds a space, the code raises ValueError after the read, while the model creates the parent and writes the blob (see Findings and `HeadCheckout.SpacedPathStopsAsWritten`).
- HeadCheckout.CheckOutHeadReadsFirst: the materialisation that follows the read is that of the intended reading, for the same reason as `HeadCheckout.CheckOutHead`.
- IndexWrite.WriteHeadPhase: each checkout from HEAD is the intended one, so a modified, unstaged path holding a space does not raise as it does in the code.
- IndexWrite.Write: the same gap as `IndexWrite.WriteHeadPhase`, which it runs.
- WorkArea.Meld: the same gap, through the index view's write.
- The external diff tool is a single call whose effect on the directories is not modelled.

## Findings

| source | as written | input that shows it | evidently intended | confidence | as-written member | corrected member |
|---|---|---|---|---|---|---|
| src/git_meld_index.py:353-354 | `check_out_head` splits the whole `git ls-tree` line on spaces, and unpacks exactly three fields. | A modified, unstaged file named `my file`: git prints `100644 blob <hash>\tmy file`, which splits on spaces into four fields, so the unpacking raises ValueError and the index view cannot be written. | Split only the metadata before the first tab into mode, type and object name, and leave the path unsplit. | not executed | HeadCheckout.SpacedPathStopsAsWritten | Views.LsTreeRoundTrip |
