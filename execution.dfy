/** The parts of `Execute` that do not need the operating system: resolving
    the working directory, locating the executable relative to it, building
    the argument and environment vectors, and prepending the caller's own
    streams to the sink lists. `Execution` is the whole of `Execute` as a
    function of the builder's state, the operating-system services and the
    order in which the environment map happens to be iterated. */
module Execution {
  import opened Types
  import opened Paths

  // ---------------------------------------------------------------------
  // Working directory

  /** Empty means the current directory, relative means joined onto it,
      absolute means unchanged; the current directory is asked for only when
      it is needed, and its failure is the only failure. */
  function ResolveWorkingDirectory(wd: string, getwd: Result<string, string>): (r: Result<string, Error>)
    ensures IsAbs(wd) ==> r == Success(wd)
    ensures !IsAbs(wd) && getwd.Success? ==> r == Success(Join(getwd.value, wd))
    ensures wd == "" && getwd.Success? ==> r == Success(getwd.value)
    ensures r.Failure? <==> !IsAbs(wd) && getwd.Failure?
    ensures r.Failure? ==> r.error == WorkingDirectoryUnresolvable(getwd.error)
    ensures getwd.Success? && IsAbs(getwd.value) ==> r.Success? && IsAbs(r.value)
  {
    if wd == "" then
      match getwd
      case Failure(e) => Failure(WorkingDirectoryUnresolvable(e))
      case Success(cwd) => Success(cwd)
    else if !IsAbs(wd) then
      match getwd
      case Failure(e) => Failure(WorkingDirectoryUnresolvable(e))
      case Success(cwd) => Success(Join(cwd, wd))
    else
      Success(wd)
  }

  /** A directory once resolved to an absolute path resolves to itself again,
      whatever the current directory then is. */
  lemma ResolveIsIdempotent(wd: string, getwd: Result<string, string>, later: Result<string, string>)
    requires ResolveWorkingDirectory(wd, getwd).Success?
    requires IsAbs(ResolveWorkingDirectory(wd, getwd).value)
    ensures ResolveWorkingDirectory(ResolveWorkingDirectory(wd, getwd).value, later)
         == ResolveWorkingDirectory(wd, getwd)
  {
  }

  // ---------------------------------------------------------------------
  // Executable path

  /** What `exec.LookPath` found, made absolute against the working
      directory when it is a relative path with a slash in it; a bare name
      is kept as it is. */
  function InvocationPath(found: string, wd: string): (r: string)
    ensures '/' !in found ==> r == found
    ensures IsAbs(found) ==> r == found
    ensures '/' in found && !IsAbs(found) ==> r == Join(wd, found)
    ensures '/' in found && IsAbs(wd) ==> IsAbs(r)
  {
    if '/' in found && !IsAbs(found) then Join(wd, found) else found
  }

  // ---------------------------------------------------------------------
  // Arguments

  /** The tokens one parameter contributes: its label, then its value. */
  function ParamArgs(p: Param): seq<string>
  {
    match p.value
    case None => [p.key]
    case Some(v) => [p.key, v]
  }

  /** The argument vector as the loop over the parameters builds it. */
  function ArgsOf(params: seq<Param>): seq<string>
  {
    if params == [] then []
    else ArgsOf(params[..|params| - 1]) + ParamArgs(params[|params| - 1])
  }

  /** The number of parameters that carry a value. */
  function ValuedCount(params: seq<Param>): nat
  {
    if params == [] then 0
    else ValuedCount(params[..|params| - 1]) + (if params[|params| - 1].value.Some? then 1 else 0)
  }

  /** Where the label of parameter `i` lands in the argument vector. */
  function ArgIndex(params: seq<Param>, i: nat): nat
    requires i <= |params|
  {
    i + ValuedCount(params[..i])
  }

  lemma {:induction false} ArgsLength(params: seq<Param>)
    ensures |ArgsOf(params)| == |params| + ValuedCount(params)
  {
    if params != [] {
      ArgsLength(params[..|params| - 1]);
    }
  }

  /** Every parameter's label, and right after it its value, appear verbatim
      at its position, the positions of consecutive parameters are adjacent,
      and the vector holds nothing else: in particular no program name comes
      first. */
  lemma {:induction false} ArgsLayout(params: seq<Param>, i: nat)
    requires i < |params|
    ensures |ArgsOf(params)| == |params| + ValuedCount(params)
    ensures ArgIndex(params, i) < |ArgsOf(params)|
    ensures ArgsOf(params)[ArgIndex(params, i)] == params[i].key
    ensures params[i].value.Some? ==>
      ArgIndex(params, i) + 1 < |ArgsOf(params)| && ArgsOf(params)[ArgIndex(params, i) + 1] == params[i].value.value
    ensures ArgIndex(params, i + 1) == ArgIndex(params, i) + |ParamArgs(params[i])|
    ensures i == 0 ==> ArgIndex(params, i) == 0
  {
    ArgsLength(params);
    var init := params[..|params| - 1];
    assert params[..i + 1][..i] == params[..i];
    if i == |params| - 1 {
      assert params[..i] == init;
      ArgsLength(init);
    } else {
      ArgsLayout(init, i);
      assert init[..i] == params[..i];
      assert init[..i + 1] == params[..i + 1];
    }
  }

  /** The first argument is the first parameter's label (it becomes argv[0]). */
  lemma FirstArgIsFirstLabel(params: seq<Param>)
    requires |params| > 0
    ensures |ArgsOf(params)| > 0 && ArgsOf(params)[0] == params[0].key
  {
    ArgsLayout(params, 0);
  }

  /** The loop of `Execute` that appends each label and then its value. */
  method AssembleArgs(params: seq<Param>) returns (args: seq<string>)
    ensures args == ArgsOf(params)
  {
    args := [];
    var i := 0;
    while i < |params|
      invariant 0 <= i <= |params|
      invariant args == ArgsOf(params[..i])
    {
      assert params[..i + 1][..i] == params[..i];
      args := args + [params[i].key];
      if params[i].value.Some? {
        args := args + [params[i].value.value];
      }
      i := i + 1;
    }
    assert params[..i] == params;
  }

  // ---------------------------------------------------------------------
  // Environment

  /** One environment entry, `KEY=VALUE`. */
  function Entry(key: string, value: string): string
  {
    key + "=" + value
  }

  /** An order in which a map's keys can be iterated: each key exactly once. */
  ghost predicate IsKeyOrder(order: seq<string>, m: map<string, string>)
  {
    && (forall k :: k in m <==> k in order)
    && (forall i, j :: 0 <= i < j < |order| ==> order[i] != order[j])
  }

  /** The override entries, one per key, in the given order. */
  function Overrides(order: seq<string>, m: map<string, string>): seq<string>
    requires forall k :: k in order ==> k in m
  {
    if order == [] then []
    else
      var last := order[|order| - 1];
      Overrides(order[..|order| - 1], m) + [Entry(last, m[last])]
  }

  /** The environment vector: the inherited entries first unless global
      inheritance is disabled, then the overrides. */
  function EnvironmentOf(disabled: bool, environ: seq<string>, order: seq<string>, m: map<string, string>): seq<string>
    requires forall k :: k in order ==> k in m
  {
    (if disabled then [] else environ) + Overrides(order, m)
  }

  lemma {:induction false} OverridesAt(order: seq<string>, m: map<string, string>)
    requires forall k :: k in order ==> k in m
    ensures |Overrides(order, m)| == |order|
    ensures forall i :: 0 <= i < |order| ==> Overrides(order, m)[i] == Entry(order[i], m[order[i]])
  {
    if order != [] {
      var init := order[..|order| - 1];
      OverridesAt(init, m);
    }
  }

  lemma {:induction false} DistinctCard(s: seq<string>)
    requires forall i, j :: 0 <= i < j < |s| ==> s[i] != s[j]
    ensures |set x | x in s| == |s|
  {
    if s != [] {
      var init := s[..|s| - 1];
      DistinctCard(init);
      assert (set x | x in s) == (set x | x in init) + {s[|s| - 1]};
      assert s[|s| - 1] !in init;
    }
  }

  lemma KeyOrderLength(order: seq<string>, m: map<string, string>)
    requires IsKeyOrder(order, m)
    ensures |order| == |m|
  {
    DistinctCard(order);
    assert (set x | x in order) == m.Keys;
  }

  /** With global inheritance disabled the environment holds exactly one
      `KEY=VALUE` entry per key of the map and nothing else; otherwise the
      inherited entries come first, unchanged, and the same overrides follow. */
  lemma EnvironmentLayout(disabled: bool, environ: seq<string>, order: seq<string>, m: map<string, string>)
    requires IsKeyOrder(order, m)
    ensures var env := EnvironmentOf(disabled, environ, order, m);
      var base := if disabled then 0 else |environ|;
      && |order| == |m|
      && |env| == base + |m|
      && env[..base] == (if disabled then [] else environ)
      && (forall i :: 0 <= i < |order| ==> env[base + i] == Entry(order[i], m[order[i]]))
      && (forall k :: k in m ==> exists i :: 0 <= i < |order| && order[i] == k && env[base + i] == Entry(k, m[k]))
  {
    KeyOrderLength(order, m);
    OverridesAt(order, m);
    var env := EnvironmentOf(disabled, environ, order, m);
    var base := if disabled then 0 else |environ|;
    forall k | k in m
      ensures exists i :: 0 <= i < |order| && order[i] == k && env[base + i] == Entry(k, m[k])
    {
      var i :| 0 <= i < |order| && order[i] == k;
      assert env[base + i] == Entry(k, m[k]);
    }
  }

  /** The name of an environment entry: the text before its first `=`. */
  function Name(entry: string): string
  {
    if entry == [] || entry[0] == '=' then [] else [entry[0]] + Name(entry[1..])
  }

  lemma {:induction false} NameOfEntry(key: string, value: string)
    requires '=' !in key
    ensures Name(Entry(key, value)) == key
  {
    if key != [] {
      assert Entry(key, value)[1..] == Entry(key[1..], value);
      NameOfEntry(key[1..], value);
    } else {
      assert Entry(key, value)[0] == '=';
    }
  }

  /** Every override's entry comes after every inherited entry and after
      the entries of the other overrides that share no name with it, so it is
      the last entry of its name: when the entries are read with the last one
      of each name winning, each override key gets the map's value. */
  lemma OverridesComeLast(disabled: bool, environ: seq<string>, order: seq<string>, m: map<string, string>, k: string)
    requires IsKeyOrder(order, m)
    requires forall key :: key in m ==> '=' !in key
    requires k in m
    ensures var env := EnvironmentOf(disabled, environ, order, m);
      exists i :: 0 <= i < |env| && env[i] == Entry(k, m[k]) &&
        forall j :: i < j < |env| ==> Name(env[j]) != k
  {
    EnvironmentLayout(disabled, environ, order, m);
    var env := EnvironmentOf(disabled, environ, order, m);
    var base := if disabled then 0 else |environ|;
    var i0 :| 0 <= i0 < |order| && order[i0] == k;
    forall j | base + i0 < j < |env|
      ensures Name(env[j]) != k
    {
      var j0 := j - base;
      assert env[base + j0] == Entry(order[j0], m[order[j0]]);
      NameOfEntry(order[j0], m[order[j0]]);
    }
    assert env[base + i0] == Entry(k, m[k]);
  }

  lemma {:induction false} OverridesConcat(a: seq<string>, b: seq<string>, m: map<string, string>)
    requires forall k :: k in a + b ==> k in m
    ensures Overrides(a + b, m) == Overrides(a, m) + Overrides(b, m)
  {
    if b == [] {
      assert a + b == a;
    } else {
      var initB := b[..|b| - 1];
      assert (a + b)[..|a + b| - 1] == a + initB;
      OverridesConcat(a, initB, m);
    }
  }

  lemma {:induction false} OverridesPermute(o1: seq<string>, o2: seq<string>, m: map<string, string>)
    requires multiset(o1) == multiset(o2)
    requires forall k :: k in o1 ==> k in m
    requires forall k :: k in o2 ==> k in m
    ensures multiset(Overrides(o1, m)) == multiset(Overrides(o2, m))
    decreases |o1|
  {
    if o1 == [] {
      assert |o2| == |multiset(o2)| == 0;
    } else {
      var init := o1[..|o1| - 1];
      var last := o1[|o1| - 1];
      var a, b := RemoveOne(o1, o2);
      OverridesPermute(init, a + b, m);
      OverridesConcat(a, b, m);
      OverridesConcat(a + [last], b, m);
      OverridesConcat(a, [last], m);
      assert o2 == a + [last] + b;
    }
  }

  /** Taking the last element off one of two permutations of each other
      leaves a permutation of the other with that element cut out. */
  lemma RemoveOne(o1: seq<string>, o2: seq<string>) returns (a: seq<string>, b: seq<string>)
    requires |o1| > 0 && multiset(o1) == multiset(o2)
    ensures o2 == a + [o1[|o1| - 1]] + b
    ensures multiset(o1[..|o1| - 1]) == multiset(a + b)
  {
    var init, last := o1[..|o1| - 1], o1[|o1| - 1];
    assert o1 == init + [last];
    assert last in multiset(o2);
    var j :| 0 <= j < |o2| && o2[j] == last;
    a, b := o2[..j], o2[j + 1..];
    SplitAt(o2, j);
    MultisetCancel(multiset(init), multiset(a + b), last);
  }

  lemma SplitAt(s: seq<string>, j: nat)
    requires j < |s|
    ensures s == s[..j] + [s[j]] + s[j + 1..]
    ensures multiset(s) == multiset(s[..j] + s[j + 1..]) + multiset{s[j]}
  {
    assert s == s[..j] + [s[j]] + s[j + 1..];
  }

  lemma MultisetCancel(x: multiset<string>, y: multiset<string>, e: string)
    requires x + multiset{e} == y + multiset{e}
    ensures x == y
  {
    forall k ensures x[k] == y[k] {
      assert (x + multiset{e})[k] == (y + multiset{e})[k];
    }
  }

  lemma {:induction false} DistinctMultiplicity(s: seq<string>, x: string)
    requires forall i, j :: 0 <= i < j < |s| ==> s[i] != s[j]
    ensures multiset(s)[x] == if x in s then 1 else 0
  {
    if s != [] {
      var init := s[..|s| - 1];
      assert s == init + [s[|s| - 1]];
      DistinctMultiplicity(init, x);
      assert s[|s| - 1] !in init;
    }
  }

  /** Whatever order the map is iterated in, the override entries are the
      same up to permutation. */
  lemma OverridesOrderIrrelevant(o1: seq<string>, o2: seq<string>, m: map<string, string>)
    requires IsKeyOrder(o1, m) && IsKeyOrder(o2, m)
    ensures multiset(Overrides(o1, m)) == multiset(Overrides(o2, m))
  {
    forall x ensures multiset(o1)[x] == multiset(o2)[x] {
      DistinctMultiplicity(o1, x);
      DistinctMultiplicity(o2, x);
    }
    assert multiset(o1) == multiset(o2);
    OverridesPermute(o1, o2, m);
  }

  /** Every map has an iteration order. */
  lemma SomeKeyOrder(m: map<string, string>) returns (order: seq<string>)
    ensures IsKeyOrder(order, m)
    decreases |m|
  {
    if |m| == 0 {
      order := [];
    } else {
      var k :| k in m;
      var rest := m - {k};
      assert rest.Keys == m.Keys - {k};
      var o := SomeKeyOrder(rest);
      order := o + [k];
    }
  }

  /** One step of the environment loop: one more key, one more entry. */
  lemma OverridesSnoc(order: seq<string>, key: string, m: map<string, string>)
    requires forall k :: k in order ==> k in m
    requires key in m
    ensures forall k :: k in order + [key] ==> k in m
    ensures Overrides(order + [key], m) == Overrides(order, m) + [Entry(key, m[key])]
  {
    assert (order + [key])[..|order|] == order;
  }

  lemma DistinctSnoc(order: seq<string>, key: string)
    requires forall i, j :: 0 <= i < j < |order| ==> order[i] != order[j]
    requires key !in order
    ensures forall i, j :: 0 <= i < j < |order + [key]| ==> (order + [key])[i] != (order + [key])[j]
  {
  }

  /** Moving one key from the remaining set to the order keeps every key of
      the map in exactly one of the two. */
  lemma KeyStep(m: map<string, string>, remaining: set<string>, order: seq<string>, key: string)
    requires forall k :: k in m <==> k in remaining || k in order
    requires forall k :: k in remaining ==> k !in order
    requires key in remaining
    ensures forall k :: k in m <==> k in remaining - {key} || k in order + [key]
    ensures forall k :: k in remaining - {key} ==> k !in order + [key]
  {
  }

  /** The loop of `Execute` over the environment map, which Go iterates in
      no fixed order: each key is taken once, in some order. */
  method AssembleEnv(disabled: bool, environ: seq<string>, m: map<string, string>)
    returns (env: seq<string>, ghost order: seq<string>)
    ensures IsKeyOrder(order, m)
    ensures env == EnvironmentOf(disabled, environ, order, m)
  {
    env := [];
    if !disabled {
      env := env + environ;
    }
    ghost var base := env;
    assert base == (if disabled then [] else environ);
    var remaining := m.Keys;
    order := [];
    while remaining != {}
      invariant forall k :: k in m <==> k in remaining || k in order
      invariant forall k :: k in remaining ==> k !in order
      invariant forall i, j :: 0 <= i < j < |order| ==> order[i] != order[j]
      invariant env == base + Overrides(order, m)
      decreases remaining
    {
      var key :| key in remaining;
      OverridesSnoc(order, key, m);
      DistinctSnoc(order, key);
      KeyStep(m, remaining, order, key);
      env := env + [Entry(key, m[key])];
      order := order + [key];
      remaining := remaining - {key};
    }
  }

  // ---------------------------------------------------------------------
  // Sinks

  /** The sink list after the mirror step: the process's own stream first
      when mirroring is enabled. */
  function Mirrored(enabled: bool, own: Sink, sinks: seq<Sink>): seq<Sink>
  {
    if enabled then [own] + sinks else sinks
  }

  // ---------------------------------------------------------------------
  // The whole of Execute

  datatype Outcome = Outcome(output: Output, after: CommandState)

  function Failed(e: Error): Output
  {
    Output(Some(e), None)
  }

  /** `Execute` on state `s`: the output it returns and the state it leaves
      behind, when the environment map is iterated in `order`. */
  function Execution(s: CommandState, os: Os, order: seq<string>): Outcome
    requires IsKeyOrder(order, s.environment)
  {
    match ResolveWorkingDirectory(s.workingDirectory, os.getwd)
    case Failure(e) => Outcome(Failed(e), s)
    case Success(wd) => InDirectory(s.(workingDirectory := wd), os, order)
  }

  /** The rest of `Execute` once the resolved directory is written back:
      check it, find the executable, then launch. */
  function InDirectory(s: CommandState, os: Os, order: seq<string>): Outcome
    requires IsKeyOrder(order, s.environment)
  {
    if s.workingDirectory !in os.lstat then
      Outcome(Failed(WorkingDirectoryUnopenable(s.workingDirectory)), s)
    else if !os.lstat[s.workingDirectory] then
      Outcome(Failed(NotADirectory(s.workingDirectory)), s)
    else
      match os.lookPath
      case Failure(reason) => Outcome(Failed(InvocationNotFound(s.invocation, reason)), s)
      case Success(found) => Launch(s, os, order, found)
  }

  /** Wiring and running the child once the executable is found. */
  function Launch(s: CommandState, os: Os, order: seq<string>, found: string): Outcome
    requires IsKeyOrder(order, s.environment)
  {
    var stderr := Mirrored(s.stderrEnabled, OsStderr, s.stderr);
    var stdout := Mirrored(s.stdoutEnabled, OsStdout, s.stdout);
    var p := Process(
      InvocationPath(found, s.workingDirectory), s.workingDirectory, ArgsOf(s.params),
      EnvironmentOf(s.globalEnvironmentDisabled, os.environ, order, s.environment),
      stdout + [CaptureStdout], stderr + [CaptureStderr]);
    Outcome(
      Output(if os.runError.Some? then Some(RunFailed(os.runError.value)) else None, Some(p)),
      s.(stdout := stdout, stderr := stderr))
  }

  /** When the command is handed to `cmd.Run`: the directory resolves and is
      a directory, and the invocation is found. A nil error then means `Run`
      succeeded; every early failure leaves the sink lists alone. */
  lemma ExecutionLaunches(s: CommandState, os: Os, order: seq<string>)
    requires IsKeyOrder(order, s.environment)
    ensures var r := Execution(s, os, order);
      var wd := ResolveWorkingDirectory(s.workingDirectory, os.getwd);
      && (r.output.launched.Some? <==>
            wd.Success? && wd.value in os.lstat && os.lstat[wd.value] && os.lookPath.Success?)
      && (r.output.launched.None? ==> r.output.error.Some?)
      && (wd.Failure? ==> r.output.error == Some(wd.error))
      && (wd.Success? && wd.value !in os.lstat ==>
            r.output.error == Some(WorkingDirectoryUnopenable(wd.value)))
      && (wd.Success? && wd.value in os.lstat && !os.lstat[wd.value] ==>
            r.output.error == Some(NotADirectory(wd.value)))
      && (wd.Success? && wd.value in os.lstat && os.lstat[wd.value] && os.lookPath.Failure? ==>
            r.output.error == Some(InvocationNotFound(s.invocation, os.lookPath.error)))
      && (r.output.launched.Some? ==> (r.output.error.None? <==> os.runError.None?))
      && (r.output.launched.None? ==> r.after.stdout == s.stdout && r.after.stderr == s.stderr)
  {
  }

  /** Only the working directory and the two sink lists change. The resolved
      directory is written back even when a later step fails, so it is
      absolute afterwards whenever the current directory is. */
  lemma ExecutionWritesBack(s: CommandState, os: Os, order: seq<string>)
    requires IsKeyOrder(order, s.environment)
    ensures var r := Execution(s, os, order);
      && r.after == s.(workingDirectory := r.after.workingDirectory, stdout := r.after.stdout, stderr := r.after.stderr)
      && (ResolveWorkingDirectory(s.workingDirectory, os.getwd).Success? ==>
            r.after.workingDirectory == ResolveWorkingDirectory(s.workingDirectory, os.getwd).value)
      && (os.getwd.Success? && IsAbs(os.getwd.value) ==> IsAbs(r.after.workingDirectory))
  {
  }

  /** Handed to `cmd.Run`, the command is wired with the resolved directory, the
      parameters' tokens as arguments, the inherited entries (if any) and one
      entry per override as environment, and each fan-out list is the
      builder's new sink list followed by that stream's capture buffer. */
  lemma LaunchedProcess(s: CommandState, os: Os, order: seq<string>)
    requires IsKeyOrder(order, s.environment)
    requires Execution(s, os, order).output.launched.Some?
    ensures var r := Execution(s, os, order);
      var p := r.output.launched.value;
      && p.dir == r.after.workingDirectory
      && p.args == ArgsOf(s.params)
      && |p.args| == |s.params| + ValuedCount(s.params)
      && p.env == EnvironmentOf(s.globalEnvironmentDisabled, os.environ, order, s.environment)
      && |p.env| == (if s.globalEnvironmentDisabled then 0 else |os.environ|) + |s.environment|
      && p.stdout == r.after.stdout + [CaptureStdout]
      && p.stderr == r.after.stderr + [CaptureStderr]
      && p.path == InvocationPath(os.lookPath.value, p.dir)
  {
    ArgsLength(s.params);
    KeyOrderLength(order, s.environment);
    OverridesAt(order, s.environment);
  }

  /** The arguments the child receives. The loop leaves `Args` a nil slice
      when there are no parameters, and `exec.Cmd` runs an empty `Args` as
      the path alone. */
  function ChildArguments(p: Process): (argv: seq<string>)
    ensures |argv| > 0
    ensures |p.args| > 0 ==> argv == p.args
    ensures p.args == [] ==> argv == [p.path]
  {
    if |p.args| > 0 then p.args else [p.path]
  }

  /** The environment list `exec.Cmd` starts from, before it adds `PWD` and
      keeps only the last entry of each name: a nil `Env` is replaced by the
      calling process's environment. The vector is nil exactly when nothing
      was appended to it, that is, when it is empty. */
  function ExecEnvironment(p: Process, inherited: seq<string>): (env: seq<string>)
    ensures p.env != [] ==> env == p.env
    ensures p.env == [] ==> env == inherited
  {
    if p.env == [] then inherited else p.env
  }

  /** The arguments a child started from this wiring receives, and the environment list
      `exec.Cmd` is handed. With no parameters the child's only argument is its
      path. With the global environment disabled and no overrides set, nothing
      is appended to the environment, so `exec.Cmd` starts from the whole
      environment of the caller after all. */
  lemma LaunchedChild(s: CommandState, os: Os, order: seq<string>)
    requires IsKeyOrder(order, s.environment)
    requires Execution(s, os, order).output.launched.Some?
    ensures var p := Execution(s, os, order).output.launched.value;
      && ChildArguments(p) == (if s.params == [] then [p.path] else ArgsOf(s.params))
      && ExecEnvironment(p, os.environ)
         == (if s.globalEnvironmentDisabled && s.environment == map[] then os.environ
             else EnvironmentOf(s.globalEnvironmentDisabled, os.environ, order, s.environment))
      && (s.globalEnvironmentDisabled && s.environment == map[] ==>
            p.env == [] && ExecEnvironment(p, os.environ) == os.environ)
  {
    LaunchedProcess(s, os, order);
    if s.environment != map[] {
      var k :| k in s.environment;
      assert |s.environment| > 0 by {
        assert k in s.environment.Keys;
      }
    }
  }

  /** The iteration order of the environment map changes nothing but the
      order of the override entries. */
  lemma ExecutionOrderIrrelevant(s: CommandState, os: Os, o1: seq<string>, o2: seq<string>)
    requires IsKeyOrder(o1, s.environment) && IsKeyOrder(o2, s.environment)
    ensures var r1, r2 := Execution(s, os, o1), Execution(s, os, o2);
      && r1.after == r2.after
      && r1.output.launched.Some? == r2.output.launched.Some?
      && (r1.output.launched.None? ==> r1.output == r2.output)
      && (r1.output.launched.Some? ==>
            var p1, p2 := r1.output.launched.value, r2.output.launched.value;
            p1.(env := p2.env) == p2 && multiset(p1.env) == multiset(p2.env))
  {
    OverridesOrderIrrelevant(o1, o2, s.environment);
  }

  /** With mirroring enabled, every execution that reaches `cmd.Run` prepends the process's
      own stream again: after two, it is in the list twice, and the second
      child writes each byte to it twice. */
  lemma RepeatedExecutionAccumulates(s: CommandState, os: Os, o1: seq<string>, o2: seq<string>)
    requires IsKeyOrder(o1, s.environment)
    requires Execution(s, os, o1).output.launched.Some?
    requires IsKeyOrder(o2, Execution(s, os, o1).after.environment)
    requires Execution(Execution(s, os, o1).after, os, o2).output.launched.Some?
    ensures var r2 := Execution(Execution(s, os, o1).after, os, o2);
      && r2.after.stdout == (if s.stdoutEnabled then [OsStdout, OsStdout] else []) + s.stdout
      && r2.after.stderr == (if s.stderrEnabled then [OsStderr, OsStderr] else []) + s.stderr
      && r2.output.launched.value.stdout == r2.after.stdout + [CaptureStdout]
  {
    var r1 := Execution(s, os, o1);
    LaunchedSinks(s, os, o1);
    LaunchedSinks(r1.after, os, o2);
  }

  lemma LaunchedSinks(s: CommandState, os: Os, order: seq<string>)
    requires IsKeyOrder(order, s.environment)
    requires Execution(s, os, order).output.launched.Some?
    ensures var r := Execution(s, os, order);
      && r.after.stdout == Mirrored(s.stdoutEnabled, OsStdout, s.stdout)
      && r.after.stderr == Mirrored(s.stderrEnabled, OsStderr, s.stderr)
      && r.after.stdoutEnabled == s.stdoutEnabled
      && r.after.stderrEnabled == s.stderrEnabled
      && r.after.environment == s.environment
      && r.output.launched.value.stdout == r.after.stdout + [CaptureStdout]
      && r.output.launched.value.stderr == r.after.stderr + [CaptureStderr]
  {
  }
}
