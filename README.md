# go-commander command builder, in Dafny

This project models the command builder of `go-commander`, a small Go package
for building a shell command step by step, printing it, and running it.

- **`Commander.Command`** (`command.dfy`) is the builder, a class whose fields
  are the fields of the `command` struct.
  - Each builder method changes one field in place and returns the receiver.
  - Each one's postcondition gives the whole new state.
  - `GetAsString` is the rendering loop. It is proved equal to the function
    `Display.Render`.
  - `Execute` runs the command. It is proved equal to the function
    `Execution.Execution`, which returns the output together with the builder's
    new state.
- **`Utils.NewCommand`** (`utils.dfy`) builds the initial state.
- **`Types`** (`types.dfy`) holds the values:
  - a parameter is a label with an optional value;
  - an output sink (`io.Writer`) is an opaque token, with the caller's own
    streams and the two capture buffers as distinct tokens;
  - the child process is modelled by the way it is wired just before it runs:
    path, directory, arguments, environment and fan-out lists;
  - the errors and their messages.
- **`Paths`** (`paths.dfy`) holds the two `path` helpers that `Execute` uses.
- **`Display`** (`display.dfy`) specifies the rendering and proves its shape:
  - the output is the invocation, then a delimiter and a token for each
    parameter, then `;`;
  - the two modes differ only in the delimiter;
  - values are quoted when they hold a space, and are never escaped;
  - the number of lines each mode produces.
- **`Execution`** (`execution.dfy`) specifies `Execute`, with the operating
  system given as an input value (`Os`):
  - working-directory resolution, and the resolved directory written back;
  - the executable path;
  - the argument vector;
  - the environment vector;
  - the mirroring of the caller's own streams into the sink lists.
- **`Usage`** (`usage.dfy`) replays the package's unit tests against the
  builder's contracts, including the exact strings of both rendering tests. It
  also proves that repeated executions accumulate mirrored streams.

Go iterates a map in no fixed order. The environment loop of `Execute`
therefore picks any remaining key at each step, and hands back, as a ghost
output, the order it used. `Execution.OverridesOrderIrrelevant` and
`Execution.ExecutionOrderIrrelevant` prove that this order changes nothing but
the order of the `KEY=VALUE` entries.

The model follows the code where the code's comments or its apparent intent
say otherwise:

- The flags `isStdoutEnabled` and `isStderrEnabled` are documented as
  *disabling* console output (types.go:82-88). The code uses them to *enable*
  mirroring to the caller's streams (command.go:103, 112), and so does the model.
- The quote-escaping call at command.go:140 discards its result. The model
  computes the escaped value and drops it too, so `"value 5"` renders as
  `""value 5""`.
- `cmd.Args` is built without a program name, so the first parameter's label
  becomes the child's `argv[0]` (`Execution.FirstArgIsFirstLabel`).
- Every execution with mirroring enabled that gets past the directory and
  `LookPath` checks prepends the caller's stream to the builder's own sink list
  again; an execution that fails before that leaves both lists alone
  (`Execution.ExecutionLaunches`). Executions are therefore not independent:
  when two runs both reach `cmd.Run`, the second writes each byte to the
  caller's stream twice (`Execution.RepeatedExecutionAccumulates`,
  `Usage.ExecuteTwiceMirrored`).
- `DisableGlobalEnvironment` is documented as keeping the caller's environment
  out of the child's (types.go:24-31). When no override is set, though, nothing
  is appended to `cmd.Env`, which stays a nil slice, and `exec.Cmd` gives a
  child with a nil environment the caller's whole environment. The model
  records the vector as built and states the list `exec.Cmd` is handed
  (`Execution.LaunchedChild`). In the same way, with no parameters the child's
  only argument is its own path.

## Model

| member | source | states |
|---|---|---|
| Commander.Command.constructor | types.go:65-104 | the builder holds exactly the field values of the struct literal it is made from |
| Utils.NewCommand | utils.go:24-32 | a fresh builder with the given invocation, an empty environment map, empty sink lists, no parameters, an empty working directory, and all three flags false |
| Commander.Command.AddParam | command.go:14-23 | appends exactly one parameter with the given label and the first value if any; earlier parameters and every other field are unchanged; the receiver is returned |
| Commander.Command.AddStderr | command.go:25-28 | the error sink list grows by the one writer at its end; nothing else changes |
| Commander.Command.AddStdout | command.go:30-33 | the output sink list grows by the one writer at its end; nothing else changes |
| Commander.Command.EnableStderr | command.go:35-38 | error mirroring is on; nothing else changes |
| Commander.Command.EnableStdout | command.go:40-43 | output mirroring is on; nothing else changes |
| Commander.Command.SetEnvironment | command.go:152-155 | upsert: the key maps to the value, every other key is present and bound exactly as before, and no other field changes |
| Commander.Command.DisableGlobalEnvironment | command.go:157-160 | the inherited environment is switched off; nothing else changes |
| Commander.Command.SetStderr | command.go:162-165 | the error sink list is exactly the one writer, and mirroring is untouched |
| Commander.Command.SetStdout | command.go:167-170 | the output sink list is exactly the one writer, and mirroring is untouched |
| Commander.Command.SetWorkingDirectory | command.go:172-175 | the working directory is stored as given, unresolved; nothing else changes |
| Commander.Command.GetAsString | command.go:125-150 | the loop's string equals `Display.Render` of the invocation, the parameters and the flag |
| Commander.Command.Execute | command.go:45-123 | for the key order the environment loop took, the output and the builder's new state are exactly those of `Execution.Execution` on the old state |
| Commander.Command.Launch | command.go:73-122 | the part after the executable is found: output and new state are those of `Execution.Launch` |
| Display.Delimiter | command.go:128-131 | the one-line delimiter exactly when a first flag is given and true, otherwise the multi-line one |
| Display.BodyStep | command.go:134-147 | writing one parameter's delimiter and token after the first i renders the first i+1 |
| Display.RenderIsDelimitedTokens | command.go:133-149 | the rendering is the invocation, each parameter's token after the mode's delimiter in parameter order, and `;`; the modes differ only in the delimiter |
| Display.RenderFrame | command.go:133-149 | the rendering starts with the invocation and ends with `;`; with no parameters it is exactly those two |
| Display.PrintedValueVerbatim | command.go:138-145 | a value is printed verbatim, wrapped in double quotes exactly when it holds a space |
| Display.EscapeIsDiscarded | command.go:139-145 | escaping would change any value holding a quote, and the value printed differs from the one escaping would have printed: quotes are printed unescaped |
| Display.EscapeKeepsSpace | command.go:140-142 | escaping neither adds nor removes a space, so it does not change whether the value is quoted |
| Display.EscapeLengthGrows | command.go:140 | escaping never shortens a value and lengthens every value that holds a quote |
| Display.RenderLines | command.go:128-149 | with no newline in the input, one-line mode renders one line and multi-line mode adds one line per parameter |
| Display.RenderCount | command.go:128-149 | with no newline in the input, the rendering holds one newline per parameter for each newline in the delimiter |
| Paths.Join | command.go:57 | joining onto an absolute path gives an absolute path; two non-empty parts are joined by one slash, and an empty part is skipped |
| Execution.ResolveWorkingDirectory | command.go:46-58 | an absolute directory is kept, an empty one becomes the current directory, and a relative one is joined onto it; resolution fails exactly when the directory is not absolute and the current directory cannot be read, with that error |
| Execution.ResolveIsIdempotent | command.go:46-58 | resolving a directory already resolved to an absolute path returns it unchanged |
| Execution.InvocationPath | command.go:73-77 | a bare name or an absolute path is kept; a relative path with a slash is joined onto the working directory and so is absolute when the directory is |
| Execution.AssembleArgs | command.go:80-86 | the loop builds exactly `ArgsOf` of the parameters |
| Execution.ArgsLength | command.go:80-86 | the argument vector has one entry per parameter plus one per valued parameter |
| Execution.ArgsLayout | command.go:80-86 | each label sits at its parameter's position with its value right after it, consecutive parameters are adjacent, and the first label is at position 0 |
| Execution.FirstArgIsFirstLabel | command.go:80-86 | no program name is prepended: the first argument is the first parameter's label |
| Execution.AssembleEnv | command.go:88-94 | the loop visits each key of the map exactly once, in some order, and builds the environment vector for that order |
| Execution.EnvironmentLayout | command.go:88-94 | the inherited entries come first and unchanged unless disabled; then exactly one `KEY=VALUE` entry per key of the map, and nothing else |
| Execution.KeyOrderLength | command.go:92 | an iteration order visits exactly as many keys as the map holds |
| Execution.OverridesOrderIrrelevant | command.go:92-94 | any two iteration orders give the same override entries up to permutation |
| Execution.OverridesPermute | command.go:92-94 | permuting the keys permutes the override entries |
| Execution.SomeKeyOrder | command.go:92 | every map has an iteration order |
| Execution.ExecutionLaunches | command.go:45-123 | the command is handed to `cmd.Run` exactly when the directory resolves, exists and is a directory, and the invocation is found; otherwise the sink lists are untouched and the error names the step that failed: the current directory's error, a directory that cannot be opened, a path that is not a directory, or the invocation not found with LookPath's reason; once handed to `cmd.Run`, an error is reported exactly when `Run` failed |
| Types.Message | command.go:49-71 | each error's text as the source formats it: every error the source builds starts with `failed to ` and ends with the wrapped `Getwd` or `LookPath` reason, or with the quoted directory path; the error of `cmd.Run` is returned as it is |
| Types.MessagesDistinguish | command.go:59-72 | the messages for a directory that cannot be opened, a path that is not a directory and an invocation not found differ from each other, whatever paths and names they hold |
| Execution.ExecutionWritesBack | command.go:46-58 | only the working directory and the sink lists change; the resolved directory is written back even when a later step fails, and it is absolute whenever the current directory is |
| Execution.LaunchedProcess | command.go:66-118 | a command handed to `cmd.Run` is wired with the resolved directory and the assembled argument and environment vectors, whose lengths are given; each fan-out list is the builder's new sink list followed by that stream's own capture buffer |
| Execution.LaunchedChild | command.go:80-94 | the arguments a child started from that wiring gets are its path alone when there are no parameters, and the environment list `exec.Cmd` is handed is the caller's whole environment when the global environment is disabled and no override is set, because the source then leaves both vectors nil; otherwise the vectors as assembled |
| Execution.ChildArguments | command.go:80-86 | the child always receives at least one argument: the assembled vector when it is non-empty, otherwise the path alone |
| Execution.ExecEnvironment | command.go:88-94 | a non-empty environment vector is handed to `exec.Cmd` as it is, and an empty (nil) one is replaced by the caller's environment |
| Execution.OverridesComeLast | command.go:88-94 | for map keys without `=`, each override's `KEY=VALUE` entry is the last entry of that name in the vector, after every inherited entry, so when the last entry of each name wins the override's value is the one used |
| Execution.ExecutionOrderIrrelevant | command.go:92-94 | the map's iteration order changes nothing but the order of the environment entries |
| Execution.LaunchedSinks | command.go:102-118 | an execution that reaches `cmd.Run` prepends the caller's own stream to each sink list whose mirroring is enabled, ends each fan-out list with that stream's own capture buffer, and changes neither the flags nor the environment |
| Execution.RepeatedExecutionAccumulates | command.go:102-118 | after two executions that reach `cmd.Run`, each mirrored stream appears twice at the front of its sink list and twice in the second child's fan-out |
| Usage.AddParamBare | command_test.go:20-26 | a bare flag is stored with its label and no value |
| Usage.AddParamValued | command_test.go:28-33 | a valued flag keeps its first value |
| Usage.AddOneSink | command_test.go:35-51 | adding one writer to a fresh builder gives sink lists of length one |
| Usage.SetThenAdd | command.go:167-170 | setting a sink discards the ones added before, adding after setting keeps it, and neither turns mirroring on |
| Usage.SetEnvironmentTwice | command.go:152-155 | setting the same key twice leaves only the last value |
| Usage.RenderFresh | utils.go:24-32 | a fresh builder renders as its invocation followed by `;` in both modes |
| Usage.LabelledCommand | command_test.go:55-60 | the five `AddParam` calls of the rendering tests store those five parameters in order |
| Usage.LabelledTokens | command_test.go:62-69 | the five parameters' tokens: the spaced values are quoted, and the quoted ones are quoted again without escaping |
| Usage.RenderMultiLine | command_test.go:53-70 | the multi-line rendering of the five parameters is the string the test expects |
| Usage.RenderOneLine | command_test.go:72-82 | the one-line rendering of the five parameters is the string the test expects |
| Usage.ExecuteTwiceMirrored | command.go:112-118 | with output mirroring enabled, the first child writes to the caller's standard output once and the second writes to it twice |

## Left out

- Running the child process is not modelled: `cmd.Run`, standard input, and the
  bytes the child writes. What `exec.Cmd` does with empty vectors is modelled
  only as far as `Execution.ChildArguments` and `Execution.ExecEnvironment`
  state it. `Output.launched` records how the command is wired when it is
  handed to `cmd.Run`, not that a child ran: `Run` can fail inside `Start`
  before any child exists (a NUL byte in an argument or environment entry, a
  file the kernel will not execute, a failed fork), and the model folds every
  such failure into `Os.runError`. The error `cmd.Run` returns is an input
  (`Os.runError`), independent of that wiring.
- The capture buffers, `io.MultiWriter` and the deferred `bufio` flushes
  (command.go:106-118) are not modelled as streams. The two capture buffers
  are the `CaptureStdout` and `CaptureStderr` tokens at the end of their
  fan-out lists.
- `os.Getwd`, `os.Lstat` with `IsDir`, `exec.LookPath` and `os.Environ` are
  inputs (`Os`). `Lstat` is a map from the paths that exist to whether each is
  a directory. `LookPath` is the outcome for the builder's invocation.
- Paths.Join: does not apply Go's lexical cleaning (`.`/`..` elements, repeated
  and trailing slashes). It joins the two parts with one slash and skips empty
  parts, so a resolved directory can differ from Go's in those details.
- Types.Message: its contract states each text's opening and what it ends
  with, not the whole text, which only its definition gives (command.go:49-71).
  Beyond that, the three setup failures' messages are proved distinct
  (`Types.MessagesDistinguish`); `%s` formatting of Go error values is the
  reason string as given.
- Execution.LaunchedChild: states the environment list `exec.Cmd` is handed,
  not the one the child finally sees. `exec.Cmd` then keeps only the last entry
  of each name (`OverridesComeLast` proves that this is the override's entry).
  Since Go 1.19 on POSIX systems it also appends `PWD` with the working
  directory when it starts from the caller's environment. Neither step is
  modelled, because both belong to the Go runtime rather than this package.
- Execution.OverridesComeLast: assumes map keys contain no `=`; a key holding
  one names a different variable once written as `KEY=VALUE`.
- Aliasing is not modelled. In Go, a `Param` value points into the caller's
  variadic slice, and an `append` can share a backing array with a slice the
  caller still holds. The model stores values.
- The `Command` interface (types.go:8-63) is not modelled as a separate type.
  The class's methods are its methods.
- The test that runs a real `ls` in a fixture directory (command_test.go:84-97)
  is not modelled. It depends on the file system.
- Concurrent use of one builder is not modelled; the source does not
  synchronise it.
