/**
 The `exit` built-in (the exit handling in start_process of JCshell.c).

 Only the first command's first token is looked at. `exit` alone ends the
 shell; `exit` with further tokens, or as the first command of a pipeline,
 is refused with "exit with extra arguments!!!" and nothing is spawned;
 anything else goes on to be run.
 */
module ExitCheck {

  const ExitWord: string := "exit"

  datatype ExitDecision =
    | Terminate    // kill(0, SIGTERM); exit(0)
    | RejectExtra  // isSkip = 1, message printed, nothing spawned
    | Proceed      // not the built-in

  /** Classifies a line from the first command's argument vector and the
      number of commands. The C code compares `arguments[0]` with
      `strcmp`, which needs at least one token. */
  function Classify(firstArgv: seq<string>, numberOfCommands: nat): (d: ExitDecision)
    requires |firstArgv| > 0
    ensures d == Terminate <==> firstArgv == [ExitWord] && numberOfCommands <= 1
    ensures d == Proceed <==> firstArgv[0] != ExitWord
    ensures d == RejectExtra <==> firstArgv[0] == ExitWord && (|firstArgv| > 1 || numberOfCommands > 1)
  {
    if (numberOfCommands > 1 || |firstArgv| > 1) && firstArgv[0] == ExitWord then RejectExtra
    else if firstArgv[0] == ExitWord then Terminate
    else Proceed
  }
}
