/** The command environments of git_meld_index.py: a base environment that
    runs an argument vector, and the decorators that rewrite a call on its way
    down to it (PrefixCmdEnv, NullWrapper, VerboseWrapper), combined in pairs by
    ReadableEnv (a mutating side `cmd` and a side-effect-free side `read_cmd`).

    The base is abstracted as a recorder: every call that reaches it is
    appended to a log, and its reply comes from an oracle. */
module CmdEnv {
  import opened Wrappers

  /** One invocation of the environment: argument vector, optional stdin, tty flag. */
  datatype Call = Call(argv: seq<string>, input: Option<string>, tty: bool)

  /** What the process would do: its exit status and standard output. */
  datatype Reply = Reply(exitCode: int, stdout: string)

  /** One decorator of a wrapper chain. */
  datatype Layer =
    | Prefix(prefixArgv: seq<string>)   // PrefixCmdEnv
    | Null                              // NullWrapper
    | Verbose                           // VerboseWrapper (printing is not modelled)

  /** The call a decorator hands to the environment it wraps. */
  function Forward(layer: Layer, c: Call): Call
  {
    match layer
    case Prefix(p) => c.(argv := p + c.argv)
    case Null => Call(["true"], None, false)
    case Verbose => c
  }

  /** The call that reaches the base through a chain, outermost decorator first. */
  function Reach(chain: seq<Layer>, c: Call): Call
    decreases |chain|
  {
    if chain == [] then c else Reach(chain[1..], Forward(chain[0], c))
  }

  /** Going through two chains in turn is going through their concatenation. */
  lemma {:induction false} ReachAppend(outer: seq<Layer>, inner: seq<Layer>, c: Call)
    ensures Reach(outer + inner, c) == Reach(inner, Reach(outer, c))
    decreases |outer|
  {
    if outer != [] {
      assert (outer + inner)[1..] == outer[1..] + inner;
      ReachAppend(outer[1..], inner, Forward(outer[0], c));
    } else {
      assert outer + inner == inner;
    }
  }

  /** The argv that a chain without NullWrapper puts in front of every call:
      the innermost prefix comes first. */
  function Prefixes(chain: seq<Layer>): seq<string>
    decreases |chain|
  {
    if chain == [] then []
    else Prefixes(chain[1..]) + (if chain[0].Prefix? then chain[0].prefixArgv else [])
  }

  /** Without a NullWrapper, a chain only prepends arguments: stdin and the tty
      flag reach the base unchanged. */
  lemma {:induction false} ReachWithoutNull(chain: seq<Layer>, c: Call)
    requires Null !in chain
    ensures Reach(chain, c) == c.(argv := Prefixes(chain) + c.argv)
    decreases |chain|
  {
    if chain != [] {
      assert Null !in chain[1..] by { assert forall l :: l in chain[1..] ==> l in chain; }
      ReachWithoutNull(chain[1..], Forward(chain[0], c));
    }
  }

  /** Position of the outermost NullWrapper of a chain. */
  function IndexOfNull(chain: seq<Layer>): (i: nat)
    requires Null in chain
    ensures i < |chain| && chain[i] == Null && Null !in chain[..i]
  {
    if chain[0] == Null then 0
    else
      var j := IndexOfNull(chain[1..]);
      assert chain[..j + 1] == [chain[0]] + chain[1..][..j];
      j + 1
  }

  /** Once a NullWrapper is in the chain, what reaches the base no longer
      depends on the call made: the outermost NullWrapper hands a bare `true`
      (no stdin, no tty) to the rest of the chain. */
  lemma {:induction false} NullSwallows(chain: seq<Layer>, c: Call)
    requires Null in chain
    ensures Reach(chain, c) == Reach(chain[IndexOfNull(chain) + 1..], Call(["true"], None, false))
    decreases |chain|
  {
    if chain[0] != Null {
      assert chain == [chain[0]] + chain[1..];
      assert Null in chain[1..];
      NullSwallows(chain[1..], Forward(chain[0], c));
    }
  }

  /** ReadableEnv: the chain `cmd` goes through and the chain `read_cmd` goes through. */
  datatype Env = ReadableEnv(cmdSide: seq<Layer>, readSide: seq<Layer>)

  /** `ReadableEnv.wrap`: the same decorator goes on both sides. */
  function Wrap(env: Env, layer: Layer): Env
  {
    ReadableEnv([layer] + env.cmdSide, [layer] + env.readSide)
  }

  /** A wrapped env hands each call, on either side, to the decorator first
      and then to the env it wraps. */
  lemma WrapReach(env: Env, layer: Layer, c: Call)
    ensures Reach(Wrap(env, layer).cmdSide, c) == Reach(env.cmdSide, Forward(layer, c))
    ensures Reach(Wrap(env, layer).readSide, c) == Reach(env.readSide, Forward(layer, c))
  {
    ReachAppend([layer], env.cmdSide, c);
    ReachAppend([layer], env.readSide, c);
  }

  /** `BasicEnv.make_readable`: both sides are the base itself. */
  function BasicReadable(): Env
  {
    ReadableEnv([], [])
  }

  /** `PrefixCmdEnv.make_readable(prefix, env)`. */
  function PrefixReadable(prefix: seq<string>, env: Env): Env
  {
    Wrap(env, Prefix(prefix))
  }

  /** `VerboseWrapper.make_readable(env)`. */
  function VerboseReadable(env: Env): Env
  {
    Wrap(env, Verbose)
  }

  /** `NullWrapper.make_readable(env)`: the mutating side is swallowed; the
      reading side is the wrapped ReadableEnv itself, whose `cmd` it calls, so
      reads go down the wrapped env's mutating chain. */
  function NullReadable(env: Env): Env
  {
    ReadableEnv([Null] + env.cmdSide, env.cmdSide)
  }

  /** Under NullWrapper every mutating call reaches the wrapped env as a bare
      `true`, and every read reaches it through its mutating side, unchanged. */
  lemma NullReadableReach(env: Env, c: Call)
    ensures Reach(NullReadable(env).cmdSide, c) == Reach(env.cmdSide, Call(["true"], None, false))
    ensures Reach(NullReadable(env).readSide, c) == Reach(env.cmdSide, c)
  {
    ReachAppend([Null], env.cmdSide, c);
  }

  /** `get_env_from_arguments`: --pretend wraps with NullWrapper, then --verbose
      with VerboseWrapper. */
  function EnvFromArguments(pretend: bool, verbose: bool): Env
  {
    var env := BasicReadable();
    var env := if pretend then NullReadable(env) else env;
    if verbose then VerboseReadable(env) else env
  }

  /** --pretend is a dry run: every mutating call reaches the base as a bare
      `true`, while reads reach it unchanged; without --pretend both sides
      pass every call through unchanged. */
  lemma {:induction false} PretendIsDryRun(pretend: bool, verbose: bool, c: Call)
    ensures pretend ==> Reach(EnvFromArguments(pretend, verbose).cmdSide, c) == Call(["true"], None, false)
    ensures Reach(EnvFromArguments(pretend, verbose).readSide, c) == c
    ensures !pretend ==> Reach(EnvFromArguments(pretend, verbose).cmdSide, c) == c
  {
    var env := EnvFromArguments(pretend, verbose);
    assert Null !in env.readSide;
    ReachWithoutNull(env.readSide, c);
    if pretend {
      NullSwallows(env.cmdSide, c);
    } else {
      ReachWithoutNull(env.cmdSide, c);
    }
  }

  /** `in_dir(dir)`: a shell prefix that changes to `dir` before running the rest. */
  function InDir(dir: string): (argv: seq<string>)
    ensures |argv| == 5 && argv[4] == dir
  {
    ["sh", "-c", "cd \"$1\" && shift && exec \"$@\"", "inline_cd", dir]
  }

  /** What the base environment makes of a call (`BasicEnv.cmd`): with a tty
      the exit status is not checked and no output is read; otherwise a
      nonzero exit status raises CalledProcessError and zero yields stdout. */
  function Outcome(answer: Call -> Reply, c: Call): Result<string, Error>
  {
    if c.tty then Success("")
    else if answer(c).exitCode != 0 then Failure(CalledProcessError(answer(c).exitCode, c.argv, answer(c).stdout))
    else Success(answer(c).stdout)
  }

  /** A call made with a tty never raises, whatever its exit status, and
      yields no output. */
  lemma TtyNeverRaises(answer: Call -> Reply, c: Call)
    requires c.tty
    ensures Outcome(answer, c) == Success("")
  {
  }

  function ErrorOf(r: Result<string, Error>): Option<Error>
  {
    if r.Failure? then Some(r.error) else None
  }

  /** The calls a piece of code made at the base, in order, and the exception
      it stopped with, if any. */
  datatype Trace = Trace(calls: seq<Call>, error: Option<Error>)

  /** Sequential composition: the second part runs only if the first did not raise. */
  function Then(a: Trace, b: Trace): Trace
  {
    if a.error.Some? then a else Trace(a.calls + b.calls, b.error)
  }

  /** One call issued through `chain`, as a trace. */
  function Issue(answer: Call -> Reply, chain: seq<Layer>, c: Call): (t: Trace)
    ensures t.calls == [Reach(chain, c)]
    ensures t.error.Some? <==> Outcome(answer, Reach(chain, c)).Failure?
  {
    var reached := Reach(chain, c);
    Trace([reached], ErrorOf(Outcome(answer, reached)))
  }

  /** One command issued through `chain` with no stdin and no tty. */
  function Single(answer: Call -> Reply, chain: seq<Layer>, argv: seq<string>): Trace
  {
    Issue(answer, chain, Call(argv, None, false))
  }

  /** A trace followed by the exception a generator raises once it is
      exhausted (none when it ran to its end). */
  function ThenRaise(t: Trace, e: Option<Error>): Trace
  {
    if t.error.Some? then t else Trace(t.calls, e)
  }

  /** The first `n` traces run one after another; the first that raises
      ends the run. */
  function Run(ts: seq<Trace>, n: nat): Trace
    requires n <= |ts|
    decreases n
  {
    if n == 0 then Trace([], None) else Then(Run(ts, n - 1), ts[n - 1])
  }

  /** All the traces, run one after another. */
  function Steps(ts: seq<Trace>): Trace
  {
    Run(ts, |ts|)
  }

  /** A run raises exactly when one of its steps does. */
  lemma {:induction false} RunSucceeds(ts: seq<Trace>, n: nat)
    requires n <= |ts|
    ensures Run(ts, n).error.None? <==> forall i :: 0 <= i < n ==> ts[i].error.None?
    decreases n
  {
    if n > 0 {
      RunSucceeds(ts, n - 1);
    }
  }

  /** Once a run has raised, the remaining steps issue nothing. */
  lemma {:induction false} RunStopsAtFailure(ts: seq<Trace>, k: nat, n: nat)
    requires k <= n <= |ts| && Run(ts, k).error.Some?
    ensures Run(ts, n) == Run(ts, k)
    decreases n
  {
    if n > k {
      RunStopsAtFailure(ts, k, n - 1);
    }
  }

  /** A run only looks at the steps it has reached. */
  lemma {:induction false} RunPrefix(ts: seq<Trace>, us: seq<Trace>, n: nat)
    requires n <= |ts| && n <= |us| && ts[..n] == us[..n]
    ensures Run(ts, n) == Run(us, n)
    decreases n
  {
    if n > 0 {
      assert ts[n - 1] == ts[..n][n - 1];
      assert ts[..n - 1] == ts[..n][..n - 1];
      assert us[..n - 1] == us[..n][..n - 1];
      RunPrefix(ts, us, n - 1);
    }
  }

  /** One more step of a run that has not raised, as a loop issuing the steps
      one by one sees it: the log grows by that step's calls, and if the step
      raised, the log and the error are those of the whole run. */
  lemma StepAppended(log0: seq<Call>, ts: seq<Trace>, i: nat, log: seq<Call>)
    requires i < |ts| && Run(ts, i).error.None?
    requires log == log0 + Run(ts, i).calls + ts[i].calls
    ensures log == log0 + Run(ts, i + 1).calls
    ensures Run(ts, i + 1).error == ts[i].error
    ensures ts[i].error.Some? ==> log == log0 + Steps(ts).calls && Steps(ts).error == ts[i].error
  {
    AppendAssoc(log0, Run(ts, i).calls, ts[i].calls);
    if ts[i].error.Some? {
      RunStopsAtFailure(ts, i + 1, |ts|);
    }
  }

  /** A step that issues nothing and does not raise leaves the log alone. */
  lemma StepSkipped(log0: seq<Call>, ts: seq<Trace>, i: nat, log: seq<Call>)
    requires i < |ts| && Run(ts, i).error.None? && ts[i] == Trace([], None)
    requires log == log0 + Run(ts, i).calls
    ensures log == log0 + Run(ts, i + 1).calls
    ensures Run(ts, i + 1).error.None?
  {
    assert Run(ts, i).calls + [] == Run(ts, i).calls;
  }

  /** Appending to a log in two goes is appending once. */
  lemma AppendAssoc(log: seq<Call>, a: seq<Call>, b: seq<Call>)
    ensures log + a + b == log + (a + b)
  {
  }

  /** A log that is complete so far, then a prefix of what comes next, is a
      prefix of the whole. */
  lemma PrefixThen(a: seq<Call>, b: seq<Call>, rest: seq<Call>)
    requires b <= rest
    ensures a + b <= a + rest
  {
    assert a + rest == (a + b) + rest[|b|..];
  }

  /** A prefix stays a prefix when more is appended to the whole. */
  lemma PrefixGrows(a: seq<Call>, whole: seq<Call>, rest: seq<Call>)
    requires a <= whole
    ensures a <= whole + rest
  {
    assert (whole + rest)[..|a|] == whole[..|a|];
  }

  /** Lists of calls laid end to end. */
  function Concat(xs: seq<seq<Call>>): seq<Call>
    decreases |xs|
  {
    if xs == [] then [] else Concat(xs[..|xs| - 1]) + xs[|xs| - 1]
  }

  /** When each step issues a prefix of its expected calls, and all of them
      unless it raises, a run issues a prefix of the expected calls laid end
      to end, and all of them unless it raises. */
  lemma {:induction false} RunWithin(ts: seq<Trace>, expected: seq<seq<Call>>, n: nat)
    requires n <= |ts| == |expected|
    requires forall i :: 0 <= i < |ts| ==> ts[i].calls <= expected[i]
    requires forall i :: 0 <= i < |ts| ==> ts[i].error.None? ==> ts[i].calls == expected[i]
    ensures Run(ts, n).calls <= Concat(expected[..n])
    ensures Run(ts, n).error.None? ==> Run(ts, n).calls == Concat(expected[..n])
    decreases n
  {
    if n > 0 {
      RunWithin(ts, expected, n - 1);
      assert expected[..n][..n - 1] == expected[..n - 1];
      assert Concat(expected[..n]) == Concat(expected[..n - 1]) + expected[n - 1];
      if Run(ts, n - 1).error.None? {
        PrefixThen(Run(ts, n - 1).calls, ts[n - 1].calls, expected[n - 1]);
      } else {
        PrefixGrows(Run(ts, n - 1).calls, Concat(expected[..n - 1]), expected[n - 1]);
      }
    }
  }

  /** Three calls appended one by one. */
  lemma AppendThree(log: seq<Call>, a: Call, b: Call, c: Call)
    ensures log + [a] + [b] + [c] == log + [a, b, c]
  {
  }

  /** When every step that does not raise issues `w` calls, a run that did
      not raise is the steps' calls laid end to end, `w` per step. */
  lemma {:induction false} RunOfEqualSteps(ts: seq<Trace>, w: nat, n: nat, k: nat)
    requires k < n <= |ts|
    requires Run(ts, n).error.None?
    requires forall i :: 0 <= i < n && ts[i].error.None? ==> |ts[i].calls| == w
    ensures |Run(ts, n).calls| == w * n
    ensures w * k + w <= w * n && Run(ts, n).calls[w * k..w * k + w] == ts[k].calls
    decreases n
  {
    assert Run(ts, n) == Then(Run(ts, n - 1), ts[n - 1]);
    if k < n - 1 {
      RunOfEqualSteps(ts, w, n - 1, k);
      assert Run(ts, n).calls[w * k..w * k + w] == Run(ts, n - 1).calls[w * k..w * k + w];
    } else if n > 1 {
      RunOfEqualSteps(ts, w, n - 1, 0);
    }
  }

  /** The base environment as a recorder: `log` holds every call that reached
      it, `answer` says how each call would end. */
  class Recorder {
    var log: seq<Call>
    const answer: Call -> Reply

    constructor (answer: Call -> Reply)
      ensures log == [] && this.answer == answer
    {
      log := [];
      this.answer := answer;
    }

    method Run(c: Call) returns (r: Result<string, Error>)
      modifies this
      ensures log == old(log) + [c]
      ensures r == Outcome(answer, c)
    {
      log := log + [c];
      r := Outcome(answer, c);
    }
  }

  /** `env.cmd(argv, input, tty)`: the call goes down the mutating chain. */
  method Cmd(base: Recorder, env: Env, argv: seq<string>, input: Option<string>, tty: bool)
    returns (r: Result<string, Error>)
    modifies base
    ensures base.log == old(base.log) + [Reach(env.cmdSide, Call(argv, input, tty))]
    ensures r == Outcome(base.answer, Reach(env.cmdSide, Call(argv, input, tty)))
  {
    r := base.Run(Reach(env.cmdSide, Call(argv, input, tty)));
  }

  /** `env.read_cmd(argv)`: the call goes down the reading chain. */
  method ReadCmd(base: Recorder, env: Env, argv: seq<string>) returns (r: Result<string, Error>)
    modifies base
    ensures base.log == old(base.log) + [Reach(env.readSide, Call(argv, None, false))]
    ensures r == Outcome(base.answer, Reach(env.readSide, Call(argv, None, false)))
  {
    r := base.Run(Reach(env.readSide, Call(argv, None, false)));
  }

  /** `try_cmd`: run through the mutating chain and report whether it succeeded. */
  method TryCmd(base: Recorder, env: Env, argv: seq<string>) returns (ok: bool)
    modifies base
    ensures base.log == old(base.log) + [Reach(env.cmdSide, Call(argv, None, false))]
    ensures ok <==> Outcome(base.answer, Reach(env.cmdSide, Call(argv, None, false))).Success?
  {
    var r := Cmd(base, env, argv, None, false);
    ok := r.Success?;
  }

  /** Characters `shlex.quote` leaves unquoted. */
  predicate ShellSafe(c: char)
  {
    ('a' <= c <= 'z') || ('A' <= c <= 'Z') || ('0' <= c <= '9') || c in "_@%+=:,./-"
  }

  /** Replace every single quote by the sequence '"'"'. */
  function EscapeQuotes(s: string): string
    decreases |s|
  {
    if s == "" then ""
    else (if s[0] == '\'' then "'\"'\"'" else [s[0]]) + EscapeQuotes(s[1..])
  }

  /** Every character of `s` is left alone by `shlex.quote`. */
  predicate AllShellSafe(s: string)
    decreases |s|
  {
    s == "" || (ShellSafe(s[0]) && AllShellSafe(s[1..]))
  }

  /** `shlex.quote(s)`, following the Python standard library's definition. */
  function ShellQuote(s: string): string
  {
    if s == "" then "''"
    else if AllShellSafe(s) then s
    else "'" + EscapeQuotes(s) + "'"
  }

  /** `shell_escape(args)`: the quoted arguments joined by spaces. */
  function ShellEscape(args: seq<string>): string
    decreases |args|
  {
    if args == [] then ""
    else if |args| == 1 then ShellQuote(args[0])
    else ShellQuote(args[0]) + " " + ShellEscape(args[1..])
  }
}
