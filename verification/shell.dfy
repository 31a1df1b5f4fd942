/**
 One pass of the shell's front end over an input line (start_process in
 JCshell.c, up to the point where processes are forked): check the pipe
 placement, cut the line into commands, tokenize them, handle `exit`,
 refuse more than five commands, and pick the wiring for the rest.

 The C code recovers from a malformed line by calling start_process
 recursively; here the line simply yields a `Rejected` outcome.
 */
module Shell {
  import opened Wrappers
  import opened Text
  import PipeSyntax
  import Commands
  import opened Tokenize
  import ExitCheck
  import Topology

  /** The largest pipeline the shell runs (`maxCommands`). */
  const MaxCommands: nat := 5

  /** Why a line runs nothing. */
  datatype Rejection =
    | BadPipe(error: PipeSyntax.PipeError)  // wrongpipe_handler
    | EmptyCommand(stage: nat)              // a command with no tokens
    | ExitWithArguments                     // "exit with extra arguments!!!"
    | TooManyCommands                       // "JCshell cannot accept more than 5 commands!"

  /** One command of a pipeline: its raw text, as printed in the statistics
      line, and the argument vector handed to execvp. */
  datatype Stage = Stage(text: string, argv: seq<string>)

  /** What the shell does with a line. */
  datatype Outcome =
    | Rejected(why: Rejection)
    | Terminate                 // the `exit` built-in
    | Launch(stages: seq<Stage>)

  /** The raw texts of the stages, in order. */
  function Texts(stages: seq<Stage>): (texts: seq<string>)
    ensures |texts| == |stages|
    ensures forall i :: 0 <= i < |stages| ==> texts[i] == stages[i].text
  {
    seq(|stages|, i requires 0 <= i < |stages| => stages[i].text)
  }

  /** The index of the first stage without tokens, if any. */
  function FirstEmpty(stages: seq<Stage>, from: nat): (r: Option<nat>)
    requires from <= |stages|
    ensures r.None? <==> forall i :: from <= i < |stages| ==> stages[i].argv != []
    ensures r.Some? ==> from <= r.value < |stages| && stages[r.value].argv == []
    ensures r.Some? ==> forall i :: from <= i < r.value ==> stages[i].argv != []
    decreases |stages| - from
  {
    if from == |stages| then None
    else if stages[from].argv == [] then Some(from)
    else FirstEmpty(stages, from + 1)
  }

  /** The commands of a pipe-valid line as stages. */
  function StagesOf(cmds: seq<string>): (stages: seq<Stage>)
    ensures |stages| == |cmds|
    ensures forall i :: 0 <= i < |cmds| ==> stages[i] == Stage(cmds[i], Argv(cmds[i]))
  {
    seq(|cmds|, i requires 0 <= i < |cmds| => Stage(cmds[i], Argv(cmds[i])))
  }

  /** The front end as a whole. The checks are made in the order of the C
      code: pipe placement, then `exit` on the first command, then the
      command count. */
  function Interpret(line: string): (o: Outcome)
    ensures PipeSyntax.Check(line).Some? <==> o.Rejected? && o.why.BadPipe?
    ensures o.Rejected? && o.why.BadPipe? ==> o.why.error == PipeSyntax.Check(line).value
    ensures o == Terminate <==>
              PipeSyntax.Check(line).None? && Count(line, PipeSyntax.Pipe) == 0 && Argv(line) == [ExitCheck.ExitWord]
    ensures o.Launch? ==> 1 <= |o.stages| <= MaxCommands
    ensures o.Launch? ==> |o.stages| == Count(line, PipeSyntax.Pipe) + 1
    ensures o.Launch? ==> Join(Texts(o.stages), PipeSyntax.Pipe) == line
    ensures o.Launch? ==> forall i :: 0 <= i < |o.stages| ==> PipeSyntax.Pipe !in o.stages[i].text
    ensures o.Launch? ==> forall i :: 0 <= i < |o.stages| ==>
              o.stages[i].argv == Argv(o.stages[i].text) && o.stages[i].argv != []
    ensures o.Launch? ==> o.stages[0].argv[0] != ExitCheck.ExitWord
    ensures o == Rejected(TooManyCommands) ==> Count(line, PipeSyntax.Pipe) >= MaxCommands
  {
    match PipeSyntax.Check(line)
    case Some(e) => Rejected(BadPipe(e))
    case None =>
      var cmds := Commands.Split(line);
      var o := Decide(cmds);
      assert o.Launch? ==> Texts(o.stages) == cmds;
      o
  }

  /** What happens to a pipe-valid line once it is cut into `cmds`: `exit`
      is judged on the first command, then the count is checked, then every
      command must have a token. A command without tokens, which the C code
      would pass to `strcmp` or `execvp` as a null pointer, is refused. */
  function Decide(cmds: seq<string>): (o: Outcome)
    requires |cmds| >= 1
    ensures o == Terminate <==> |cmds| == 1 && Argv(cmds[0]) == [ExitCheck.ExitWord]
    ensures o == Rejected(ExitWithArguments) <==>
              Argv(cmds[0]) != [] && Argv(cmds[0])[0] == ExitCheck.ExitWord &&
              (|cmds| > 1 || |Argv(cmds[0])| > 1)
    ensures o == Rejected(TooManyCommands) ==> |cmds| > MaxCommands
    ensures o.Launch? ==> o.stages == StagesOf(cmds) && |cmds| <= MaxCommands
    ensures o.Launch? ==> forall i :: 0 <= i < |cmds| ==> o.stages[i].argv != []
    ensures o.Launch? ==> o.stages[0].argv[0] != ExitCheck.ExitWord
    ensures o.Rejected? ==> !o.why.BadPipe?
  {
    var first := Argv(cmds[0]);
    if first == [] then Rejected(EmptyCommand(0))
    else
      match ExitCheck.Classify(first, |cmds|)
      case RejectExtra => Rejected(ExitWithArguments)
      case Terminate => Terminate
      case Proceed =>
        if |cmds| > MaxCommands then Rejected(TooManyCommands)
        else
          var stages := StagesOf(cmds);
          match FirstEmpty(stages, 0)
          case Some(i) => Rejected(EmptyCommand(i))
          case None => Launch(stages)
  }

  /** The descriptor wiring the shell sets up for a launched pipeline: one
      child per stage, each reading the previous stage's pipe and writing
      the next one's, and no pipe descriptor left in any child or in the
      parent. */
  function Wiring(line: string): (s: Topology.Spawned)
    requires Interpret(line).Launch?
    ensures Topology.FollowsRule(s, |Interpret(line).stages|)
  {
    var n := |Interpret(line).stages|;
    Topology.HardCodedBranchesFollowRule(n);
    Topology.Spawn(Topology.Branch(n), Topology.PipeFds(n))
  }

  // ---------------------------------------------------------------------
  // Properties of whole lines
  // ---------------------------------------------------------------------

  /** A line starting with `|` runs nothing. */
  lemma LeadingPipeRunsNothing(line: string)
    requires |line| > 0 && line[0] == PipeSyntax.Pipe
    ensures Interpret(line) == Rejected(BadPipe(PipeSyntax.PipeAtEdge))
  {
  }

  /** A line whose last character before the newline is `|` runs nothing. */
  lemma TrailingPipeRunsNothing(line: string)
    requires |line| >= 2 && line[|line| - 1] == '\n' && line[|line| - 2] == PipeSyntax.Pipe
    ensures Interpret(line) == Rejected(BadPipe(PipeSyntax.PipeAtEdge))
  {
  }

  /** A line with `||` anywhere runs nothing. */
  lemma DoublePipeRunsNothing(line: string, i: nat)
    requires i + 1 < |line| && line[i] == PipeSyntax.Pipe && line[i + 1] == PipeSyntax.Pipe
    ensures Interpret(line).Rejected? && Interpret(line).why.BadPipe?
  {
    PipeSyntax.AdjacentPipesRejected(line, i);
  }

  /** At most five commands, the first with a token other than `exit`,
      reach the check for blank commands. */
  lemma DecideProceeds(cmds: seq<string>)
    requires 1 <= |cmds| <= MaxCommands
    requires Argv(cmds[0]) != [] && Argv(cmds[0])[0] != ExitCheck.ExitWord
    ensures Decide(cmds) == match FirstEmpty(StagesOf(cmds), 0)
                            case Some(i) => Rejected(EmptyCommand(i))
                            case None => Launch(StagesOf(cmds))
  {
    assert ExitCheck.Classify(Argv(cmds[0]), |cmds|) == ExitCheck.Proceed;
  }

  /** At most five commands, all with tokens, the first not `exit`, are
      launched as they are. */
  lemma DecideLaunches(cmds: seq<string>)
    requires 1 <= |cmds| <= MaxCommands
    requires forall k :: 0 <= k < |cmds| ==> Argv(cmds[k]) != []
    requires Argv(cmds[0])[0] != ExitCheck.ExitWord
    ensures Decide(cmds) == Launch(StagesOf(cmds))
  {
    DecideProceeds(cmds);
    assert FirstEmpty(StagesOf(cmds), 0).None?;
  }

  /** A pipe-valid line of at most five commands, each with a token, whose
      first token is not `exit`, is launched with every command as a stage:
      the converse of what `Interpret` promises about a launch. */
  lemma GoodLineLaunches(line: string)
    requires PipeSyntax.Check(line).None?
    requires Count(line, PipeSyntax.Pipe) < MaxCommands
    requires forall k :: 0 <= k < |Commands.Split(line)| ==> Argv(Commands.Split(line)[k]) != []
    requires Argv(Commands.Split(line)[0])[0] != ExitCheck.ExitWord
    ensures Interpret(line) == Launch(StagesOf(Commands.Split(line)))
  {
    DecideLaunches(Commands.Split(line));
  }

  /** A pipe-valid line of more than five commands whose first command is
      not `exit` runs nothing and is refused for its length. */
  lemma TooManyCommandsRunNothing(line: string)
    requires PipeSyntax.Check(line).None?
    requires Count(line, PipeSyntax.Pipe) >= MaxCommands
    requires Argv(Commands.Split(line)[0]) != []
    requires Argv(Commands.Split(line)[0])[0] != ExitCheck.ExitWord
    ensures Interpret(line) == Rejected(TooManyCommands)
  {
    assert Interpret(line) == Decide(Commands.Split(line));
  }

  /** `exit` followed by anything, or `exit` as the first of several
      commands, is refused and runs nothing. */
  lemma ExitWithExtraRunsNothing(line: string)
    requires PipeSyntax.Check(line).None?
    requires var first := Argv(Commands.Split(line)[0]);
             |first| > 0 && first[0] == ExitCheck.ExitWord &&
             (|first| > 1 || Count(line, PipeSyntax.Pipe) > 0)
    ensures Interpret(line) == Rejected(ExitWithArguments)
  {
    assert Interpret(line) == Decide(Commands.Split(line));
  }
}
