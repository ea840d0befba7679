/** The constructor of the package. */
module Utils {
  import opened Types
  import Commander

  /** `NewCommand`: a fresh command for the invocation with an empty
      environment map, empty sink lists, no parameters, no working directory,
      the global environment included and no mirroring. */
  method NewCommand(invocation: string) returns (c: Commander.Command)
    ensures fresh(c)
    ensures c.invocation == invocation
    ensures c.environment == map[]
    ensures c.stdout == [] && c.stderr == []
    ensures c.params == [] && c.workingDirectory == ""
    ensures !c.globalEnvironmentDisabled && !c.stdoutEnabled && !c.stderrEnabled
  {
    c := new Commander.Command(CommandState(
      environment := map[],
      invocation := invocation,
      globalEnvironmentDisabled := false,
      stderrEnabled := false,
      stdoutEnabled := false,
      params := [],
      stdout := [],
      stderr := [],
      workingDirectory := ""));
  }
}
