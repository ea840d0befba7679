/** The data model of the commander package: the builder's state record,
    its parameters, the output sinks, the wired child process that an
    execution hands to the operating system, and the operating-system
    services an execution consults. */
module Types {

  datatype Option<+T> = None | Some(value: T)

  datatype Result<+T, +E> = Success(value: T) | Failure(error: E)

  /** One command-line parameter: a flag label (`key`) and an optional value
      (`Value *string` in the source; `None` is the nil pointer). */
  datatype Param = Param(key: string, value: Option<string>)

  /** An output sink (`io.Writer`), as an opaque token. `OsStdout` and
      `OsStderr` are the calling process's own streams, `CaptureStdout` and
      `CaptureStderr` the two per-execution buffers the output returns, and
      `Writer` any caller-supplied writer. */
  datatype Sink = OsStdout | OsStderr | CaptureStdout | CaptureStderr | Writer(id: nat)

  /** The failures an execution reports, one per error return of `Execute`. */
  datatype Error =
    | WorkingDirectoryUnresolvable(reason: string)
    | WorkingDirectoryUnopenable(path: string)
    | NotADirectory(path: string)
    | InvocationNotFound(invocation: string, reason: string)
    | RunFailed(reason: string)

  /** The text of each error, as the source formats it. Every error the
      source builds itself starts with "failed to " and ends with what it is
      about (the wrapped reason, or the quoted path); the error of `cmd.Run`
      is passed on as it is. */
  function Message(e: Error): (text: string)
    ensures e.RunFailed? ==> text == e.reason
    ensures !e.RunFailed? ==> |text| > 10 && text[..10] == "failed to "
    ensures e.WorkingDirectoryUnresolvable? ==> EndsWith(text, e.reason)
    ensures e.InvocationNotFound? ==> EndsWith(text, e.reason)
    ensures e.WorkingDirectoryUnopenable? ==> EndsWith(text, e.path + "'")
    ensures e.NotADirectory? ==> EndsWith(text, e.path + "'")
  {
    match e
    case WorkingDirectoryUnresolvable(reason) =>
      Failure("get current working directory: ", reason)
    case WorkingDirectoryUnopenable(path) =>
      Failure("open directory at working directory '", path + "'")
    case NotADirectory(path) =>
      Failure("find a directory at working directory path '", path + "'")
    case InvocationNotFound(invocation, reason) =>
      Failure("find invocation '" + invocation + "' in $PATH: ", reason)
    case RunFailed(reason) => reason
  }

  /** The shape shared by the errors the source formats itself: "failed to ",
      what was attempted, and then what it was about. */
  function Failure(attempt: string, subject: string): (text: string)
    ensures |text| >= 10 + |attempt| && text[..10] == "failed to "
    ensures text[10..] == attempt + subject
    ensures EndsWith(text, subject)
  {
    "failed to " + (attempt + subject)
  }

  predicate EndsWith(s: string, suffix: string)
  {
    |s| >= |suffix| && s[|s| - |suffix|..] == suffix
  }

  /** The three failures of an existing setup read differently: a path that
      cannot be opened, one that is not a directory, and an invocation that
      is not found. */
  lemma MessagesDistinguish(p: string, q: string, invocation: string, reason: string)
    ensures Message(WorkingDirectoryUnopenable(p)) != Message(NotADirectory(q))
    ensures Message(NotADirectory(q)) != Message(InvocationNotFound(invocation, reason))
    ensures Message(WorkingDirectoryUnopenable(p)) != Message(InvocationNotFound(invocation, reason))
  {
    var unopenable := "open directory at working directory '";
    var notDirectory := "find a directory at working directory path '";
    var notFound := "find invocation '" + invocation + "' in $PATH: ";
    assert Message(WorkingDirectoryUnopenable(p))[10..] == unopenable + (p + "'");
    assert Message(NotADirectory(q))[10..] == notDirectory + (q + "'");
    assert Message(InvocationNotFound(invocation, reason))[10..] == notFound + reason;
    DifferAt(unopenable, notDirectory, p + "'", q + "'", 0);
    DifferAt(notDirectory, notFound, q + "'", reason, 5);
    DifferAt(unopenable, notFound, p + "'", reason, 0);
  }

  lemma DifferAt(a: string, b: string, x: string, y: string, i: nat)
    requires i < |a| && i < |b| && a[i] != b[i]
    ensures a + x != b + y
  {
    assert (a + x)[i] == a[i] && (b + y)[i] == b[i];
  }

  /** The child process as it is wired just before it is run (`exec.Cmd`):
      the resolved executable path, its directory, argument and environment
      vectors, and the fan-out lists for standard output and error. An empty
      vector stands for the nil slice the source leaves when it appends
      nothing; `Execution.ChildArguments` and `Execution.ExecEnvironment`
      say what `exec.Cmd` makes of it. */
  datatype Process = Process(
    path: string,
    dir: string,
    args: seq<string>,
    env: seq<string>,
    stdout: seq<Sink>,
    stderr: seq<Sink>)

  /** What `Execute` returns. `launched` is present exactly when the capture
      buffers were created and the command was handed to `cmd.Run` with that
      wiring; `Run` may still fail before any child exists. The
      captured bytes themselves are not part of the model. */
  datatype Output = Output(error: Option<Error>, launched: Option<Process>)

  /** The builder's state, field by field as the `command` struct declares it. */
  datatype CommandState = CommandState(
    environment: map<string, string>,
    invocation: string,
    globalEnvironmentDisabled: bool,
    stderrEnabled: bool,
    stdoutEnabled: bool,
    params: seq<Param>,
    stdout: seq<Sink>,
    stderr: seq<Sink>,
    workingDirectory: string)

  /** The operating-system services `Execute` consults, given as inputs:
      the outcome of `os.Getwd`; the paths `os.Lstat` succeeds on, each with
      whether it is a directory; the outcome of `exec.LookPath` on the
      invocation; `os.Environ`; and the error running the child ends with
      (`None` for a nil error). */
  datatype Os = Os(
    getwd: Result<string, string>,
    lstat: map<string, bool>,
    lookPath: Result<string, string>,
    environ: seq<string>,
    runError: Option<string>)
}
