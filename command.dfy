/** The command builder: an object whose methods update its fields in place
    and return the receiver for chaining, the display rendering, and the
    execution that resolves, wires and runs the child process. */
module Commander {
  import opened Types
  import opened Paths
  import Display
  import Execution

  class Command {
    var environment: map<string, string>
    var invocation: string
    var globalEnvironmentDisabled: bool
    var stderrEnabled: bool
    var stdoutEnabled: bool
    var params: seq<Param>
    var stdout: seq<Sink>
    var stderr: seq<Sink>
    var workingDirectory: string

    /** The builder's fields as one value. */
    function State(): CommandState
      reads this
    {
      CommandState(environment, invocation, globalEnvironmentDisabled, stderrEnabled,
                   stdoutEnabled, params, stdout, stderr, workingDirectory)
    }

    /** A `command` struct literal with the given field values. */
    constructor (s: CommandState)
      ensures State() == s
    {
      environment := s.environment;
      invocation := s.invocation;
      globalEnvironmentDisabled := s.globalEnvironmentDisabled;
      stderrEnabled := s.stderrEnabled;
      stdoutEnabled := s.stdoutEnabled;
      params := s.params;
      stdout := s.stdout;
      stderr := s.stderr;
      workingDirectory := s.workingDirectory;
    }

    /** Appends one parameter labelled `key`, carrying the first of the given
        values if there is one. */
    method AddParam(key: string, value: seq<string>) returns (self: Command)
      modifies this
      ensures self == this
      ensures State() == old(State()).(params := old(params) + [Param(key, if |value| > 0 then Some(value[0]) else None)])
    {
      var param := Param(key, None);
      if |value| > 0 {
        param := param.(value := Some(value[0]));
      }
      params := params + [param];
      self := this;
    }

    method AddStderr(output: Sink) returns (self: Command)
      modifies this
      ensures self == this
      ensures State() == old(State()).(stderr := old(stderr) + [output])
    {
      stderr := stderr + [output];
      self := this;
    }

    method AddStdout(output: Sink) returns (self: Command)
      modifies this
      ensures self == this
      ensures State() == old(State()).(stdout := old(stdout) + [output])
    {
      stdout := stdout + [output];
      self := this;
    }

    /** Turns on mirroring of the child's standard error to the caller's. */
    method EnableStderr() returns (self: Command)
      modifies this
      ensures self == this
      ensures State() == old(State()).(stderrEnabled := true)
    {
      stderrEnabled := true;
      self := this;
    }

    /** Turns on mirroring of the child's standard output to the caller's. */
    method EnableStdout() returns (self: Command)
      modifies this
      ensures self == this
      ensures State() == old(State()).(stdoutEnabled := true)
    {
      stdoutEnabled := true;
      self := this;
    }

    /** Upserts one environment override. */
    method SetEnvironment(key: string, value: string) returns (self: Command)
      modifies this
      ensures self == this
      ensures State() == old(State()).(environment := old(environment)[key := value])
      ensures key in environment && environment[key] == value
      ensures forall k :: k != key ==> (k in environment <==> k in old(environment))
      ensures forall k :: k != key && k in environment ==> environment[k] == old(environment)[k]
    {
      environment := environment[key := value];
      self := this;
    }

    method DisableGlobalEnvironment() returns (self: Command)
      modifies this
      ensures self == this
      ensures State() == old(State()).(globalEnvironmentDisabled := true)
    {
      globalEnvironmentDisabled := true;
      self := this;
    }

    /** Replaces the standard error sinks by the one given. */
    method SetStderr(output: Sink) returns (self: Command)
      modifies this
      ensures self == this
      ensures State() == old(State()).(stderr := [output])
    {
      stderr := [output];
      self := this;
    }

    /** Replaces the standard output sinks by the one given. */
    method SetStdout(output: Sink) returns (self: Command)
      modifies this
      ensures self == this
      ensures State() == old(State()).(stdout := [output])
    {
      stdout := [output];
      self := this;
    }

    /** Stores the path as given; it is resolved when the command runs. */
    method SetWorkingDirectory(wd: string) returns (self: Command)
      modifies this
      ensures self == this
      ensures State() == old(State()).(workingDirectory := wd)
    {
      workingDirectory := wd;
      self := this;
    }

    /** Renders the command for display, one parameter per line unless a
        first `oneLine` flag is given and true. */
    method GetAsString(oneLine: seq<bool>) returns (s: string)
      ensures s == Display.Render(invocation, params, oneLine)
    {
      var delimiter := Display.MultiLineDelimiter;
      if |oneLine| > 0 && oneLine[0] {
        delimiter := Display.OneLineDelimiter;
      }
      var output := invocation;
      var i := 0;
      assert params[..i] == [];
      while i < |params|
        invariant 0 <= i <= |params|
        invariant output == invocation + Display.Body(delimiter, params[..i])
      {
        var flag := params[i];
        var piece;
        if flag.value.None? {
          piece := delimiter + flag.key;
        } else {
          var printedValue := flag.value.value;
          if '"' in printedValue {
            // The escaped copy is computed and dropped, as in the source.
            var _ := Display.EscapeQuotes(printedValue);
          }
          if ' ' in printedValue {
            printedValue := "\"" + printedValue + "\"";
          }
          assert printedValue == Display.PrintedValue(flag.value.value);
          piece := delimiter + (flag.key + " " + printedValue);
        }
        Display.BodyStep(invocation, output, delimiter, params, i, piece);
        output := output + piece;
        i := i + 1;
      }
      assert params[..i] == params;
      s := output + ";";
    }

    /** Runs the command against the given operating-system services: the
        returned output and the builder's new state are those of
        `Execution.Execution`, where `order` is the order in which the
        environment map happened to be iterated. */
    method Execute(os: Os) returns (out: Output, ghost order: seq<string>)
      modifies this
      ensures Execution.IsKeyOrder(order, old(environment))
      ensures Execution.Execution(old(State()), os, order) == Execution.Outcome(out, State())
    {
      ghost var s0 := State();
      order := Execution.SomeKeyOrder(environment);
      if workingDirectory == "" {
        if os.getwd.Failure? {
          out := Execution.Failed(WorkingDirectoryUnresolvable(os.getwd.error));
          return;
        }
        workingDirectory := os.getwd.value;
      } else if !IsAbs(workingDirectory) {
        if os.getwd.Failure? {
          out := Execution.Failed(WorkingDirectoryUnresolvable(os.getwd.error));
          return;
        }
        workingDirectory := Join(os.getwd.value, workingDirectory);
      }
      ghost var s1 := State();
      assert Execution.Execution(s0, os, order) == Execution.InDirectory(s1, os, order);

      if workingDirectory !in os.lstat {
        out := Execution.Failed(WorkingDirectoryUnopenable(workingDirectory));
        return;
      }
      if !os.lstat[workingDirectory] {
        out := Execution.Failed(NotADirectory(workingDirectory));
        return;
      }

      var lookup := os.lookPath;
      if lookup.Failure? {
        out := Execution.Failed(InvocationNotFound(invocation, lookup.error));
        return;
      }
      out, order := Launch(os, lookup.value);
    }

    /** The part of `Execute` after the executable is found: make its path
        absolute if needed, build the arguments and the environment, prepend
        the caller's own streams when mirroring is enabled, and run. */
    method Launch(os: Os, found: string) returns (out: Output, ghost order: seq<string>)
      modifies this
      ensures Execution.IsKeyOrder(order, old(environment))
      ensures Execution.Launch(old(State()), os, order, found) == Execution.Outcome(out, State())
    {
      var fullPath := found;
      if '/' in fullPath {
        if !IsAbs(fullPath) {
          fullPath := Join(workingDirectory, fullPath);
        }
      }

      var args := Execution.AssembleArgs(params);
      var env;
      env, order := Execution.AssembleEnv(globalEnvironmentDisabled, os.environ, environment);

      if stderrEnabled {
        stderr := [OsStderr] + stderr;
      }
      if stdoutEnabled {
        stdout := [OsStdout] + stdout;
      }
      var p := Process(fullPath, workingDirectory, args, env, stdout + [CaptureStdout], stderr + [CaptureStderr]);
      out := Output(if os.runError.Some? then Some(RunFailed(os.runError.value)) else None, Some(p));
    }
  }
}
