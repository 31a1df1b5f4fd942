/**
 Whole input lines and what the front end does with them.
 */
module Scenarios {
  import opened Wrappers
  import opened Text
  import PipeSyntax
  import Commands
  import opened Tokenize
  import ExitCheck
  import opened Shell

  /** The argument vector of a command that is a single word, optionally
      followed by the newline. */
  lemma ArgvOfWord(w: string, seg: string)
    requires w != "" && Space !in w && '\n' !in w
    requires seg == w || seg == w + "\n"
    ensures Argv(seg) == [w]
  {
    assert StripNewline(seg) == w by {
      if seg == w + "\n" {
        assert seg[..|seg| - 1] == w;
      } else {
        assert w[|w| - 1] in w;
      }
    }
    assert Join([w], Space) == w;
    TokensOfJoin([w]);
  }

  /** A pipe-valid line is decided on the commands it is cut into. */
  lemma ValidLine(line: string, cmds: seq<string>)
    requires PipeSyntax.Check(line).None?
    requires Commands.Split(line) == cmds
    ensures Interpret(line) == Decide(cmds)
  {
  }

  /** Separator-free commands that join to the line are its commands. */
  lemma CutInto(line: string, cmds: seq<string>)
    requires |cmds| >= 1
    requires forall k :: 0 <= k < |cmds| ==> PipeSyntax.Pipe !in cmds[k]
    requires Join(cmds, PipeSyntax.Pipe) == line
    ensures Commands.Split(line) == cmds
  {
    SplitUnique(line, cmds, PipeSyntax.Pipe);
  }

  /** Among at most five commands, the first not `exit`, the first blank
      one is reported. */
  lemma DecideBlank(cmds: seq<string>, i: nat)
    requires 1 <= |cmds| <= MaxCommands
    requires Argv(cmds[0]) != [] && Argv(cmds[0])[0] != ExitCheck.ExitWord
    requires i < |cmds| && Argv(cmds[i]) == []
    requires forall k :: 0 <= k < i ==> Argv(cmds[k]) != []
    ensures Decide(cmds) == Rejected(EmptyCommand(i))
  {
    DecideProceeds(cmds);
    FirstBlankFound(StagesOf(cmds), i);
  }

  /** `FirstEmpty` finds the first stage without tokens. */
  lemma FirstBlankFound(stages: seq<Stage>, i: nat)
    requires i < |stages| && stages[i].argv == []
    requires forall k :: 0 <= k < i ==> stages[k].argv != []
    ensures FirstEmpty(stages, 0) == Some(i)
  {
  }

  /** `exit` alone ends the shell. */
  lemma ExitAloneTerminates()
    ensures Interpret("exit\n") == Terminate
  {
    ExitLineValid();
    ExitLineSplit();
    ExitDecided();
    ValidLine("exit\n", ["exit\n"]);
  }

  lemma ExitLineValid()
    ensures PipeSyntax.Check("exit\n").None?
  {
    assert !PipeSyntax.HasDoublePipe("exit\n");
  }

  lemma ExitLineSplit()
    ensures Commands.Split("exit\n") == ["exit\n"]
  {
    assert Join(["exit\n"], PipeSyntax.Pipe) == "exit\n";
    CutInto("exit\n", ["exit\n"]);
  }

  lemma ExitDecided()
    ensures Decide(["exit\n"]) == Terminate
  {
    ArgvOfWord("exit", "exit\n");
  }

  /** `exit now` is refused: the built-in takes no arguments. */
  lemma ExitWithArgumentRefused()
    ensures Interpret("exit now\n") == Rejected(ExitWithArguments)
  {
    ExitNowValid();
    ExitNowSplit();
    ExitNowDecided();
    ValidLine("exit now\n", ["exit now\n"]);
  }

  lemma ExitNowValid()
    ensures PipeSyntax.Check("exit now\n").None?
  {
    assert !PipeSyntax.HasDoublePipe("exit now\n");
  }

  lemma ExitNowSplit()
    ensures Commands.Split("exit now\n") == ["exit now\n"]
  {
    assert Join(["exit now\n"], PipeSyntax.Pipe) == "exit now\n";
    CutInto("exit now\n", ["exit now\n"]);
  }

  lemma ExitNowDecided()
    ensures Decide(["exit now\n"]) == Rejected(ExitWithArguments)
  {
    ExitNowArgv();
  }

  lemma ExitNowArgv()
    ensures Argv("exit now\n") == ["exit", "now"]
  {
    assert StripNewline("exit now\n") == "exit now";
    assert Join(["exit", "now"], Space) == "exit now";
    TokensOfJoin(["exit", "now"]);
  }

  /** `exit` after a pipe is not the built-in: only the first command is
      examined, so `ls|exit` launches two stages, the second of which asks
      execvp for a program called `exit`. */
  lemma PipedExitLaunches()
    ensures Interpret("ls|exit\n") == Launch([Stage("ls", ["ls"]), Stage("exit\n", ["exit"])])
  {
    LsExitValid();
    LsExitSplit();
    LsExitDecided();
    ValidLine("ls|exit\n", ["ls", "exit\n"]);
  }

  lemma LsExitValid()
    ensures PipeSyntax.Check("ls|exit\n").None?
  {
    assert !PipeSyntax.HasDoublePipe("ls|exit\n");
  }

  lemma LsExitSplit()
    ensures Commands.Split("ls|exit\n") == ["ls", "exit\n"]
  {
    assert Join(["ls", "exit\n"], PipeSyntax.Pipe) == "ls|exit\n";
    CutInto("ls|exit\n", ["ls", "exit\n"]);
  }

  lemma LsExitDecided()
    ensures Decide(["ls", "exit\n"]) == Launch([Stage("ls", ["ls"]), Stage("exit\n", ["exit"])])
  {
    LsExitArgv();
    var cmds := ["ls", "exit\n"];
    LsExitLaunchesAsIs(cmds);
    LsExitStages(cmds);
  }

  lemma LsExitArgv()
    ensures Argv("ls") == ["ls"] && Argv("exit\n") == ["exit"]
  {
    ArgvOfWord("ls", "ls");
    ArgvOfWord("exit", "exit\n");
  }

  lemma LsExitLaunchesAsIs(cmds: seq<string>)
    requires cmds == ["ls", "exit\n"]
    requires Argv("ls") == ["ls"] && Argv("exit\n") == ["exit"]
    ensures Decide(cmds) == Launch(StagesOf(cmds))
  {
    DecideLaunches(cmds);
  }

  lemma LsExitStages(cmds: seq<string>)
    requires cmds == ["ls", "exit\n"]
    requires Argv("ls") == ["ls"] && Argv("exit\n") == ["exit"]
    ensures StagesOf(cmds) == [Stage("ls", ["ls"]), Stage("exit\n", ["exit"])]
  {
  }

  /** Six commands are refused and nothing runs. */
  lemma SixCommandsRefused()
    ensures Interpret("a|b|c|d|e|f\n") == Rejected(TooManyCommands)
  {
    SixValid();
    SixSplit();
    SixDecided();
    ValidLine("a|b|c|d|e|f\n", ["a", "b", "c", "d", "e", "f\n"]);
  }

  lemma SixValid()
    ensures PipeSyntax.Check("a|b|c|d|e|f\n").None?
  {
    assert !PipeSyntax.HasDoublePipe("a|b|c|d|e|f\n");
  }

  lemma SixSplit()
    ensures Commands.Split("a|b|c|d|e|f\n") == ["a", "b", "c", "d", "e", "f\n"]
  {
    SixJoined();
    CutInto("a|b|c|d|e|f\n", ["a", "b", "c", "d", "e", "f\n"]);
  }

  lemma SixJoined()
    ensures Join(["a", "b", "c", "d", "e", "f\n"], PipeSyntax.Pipe) == "a|b|c|d|e|f\n"
  {
    SixJoinedMiddle();
    JoinCons("a", ["b", "c", "d", "e", "f\n"], PipeSyntax.Pipe);
  }

  lemma SixJoinedMiddle()
    ensures Join(["b", "c", "d", "e", "f\n"], PipeSyntax.Pipe) == "b|c|d|e|f\n"
  {
    var p := PipeSyntax.Pipe;
    SixJoinedTail();
    JoinCons("c", ["d", "e", "f\n"], p);
    assert Join(["c", "d", "e", "f\n"], p) == "c|d|e|f\n";
    JoinCons("b", ["c", "d", "e", "f\n"], p);
  }

  lemma SixJoinedTail()
    ensures Join(["d", "e", "f\n"], PipeSyntax.Pipe) == "d|e|f\n"
  {
    var p := PipeSyntax.Pipe;
    JoinCons("e", ["f\n"], p);
    assert Join(["e", "f\n"], p) == "e|f\n";
    JoinCons("d", ["e", "f\n"], p);
  }

  lemma SixDecided()
    ensures Decide(["a", "b", "c", "d", "e", "f\n"]) == Rejected(TooManyCommands)
  {
    ArgvOfWord("a", "a");
  }

  /** A blank command between two pipes is refused as empty. */
  lemma BlankStageRefused()
    ensures Interpret("ls| |wc\n") == Rejected(EmptyCommand(1))
  {
    BlankValid();
    BlankSplit();
    BlankDecided();
    ValidLine("ls| |wc\n", ["ls", " ", "wc\n"]);
  }

  lemma BlankValid()
    ensures PipeSyntax.Check("ls| |wc\n").None?
  {
    assert !PipeSyntax.HasDoublePipe("ls| |wc\n");
  }

  lemma BlankSplit()
    ensures Commands.Split("ls| |wc\n") == ["ls", " ", "wc\n"]
  {
    assert Join(["ls", " ", "wc\n"], PipeSyntax.Pipe) == "ls| |wc\n";
    CutInto("ls| |wc\n", ["ls", " ", "wc\n"]);
  }

  lemma BlankDecided()
    ensures Decide(["ls", " ", "wc\n"]) == Rejected(EmptyCommand(1))
  {
    ArgvOfWord("ls", "ls");
    BlankArgv();
    DecideBlank(["ls", " ", "wc\n"], 1);
  }

  lemma BlankArgv()
    ensures Argv(" ") == []
  {
    assert StripNewline(" ") == " ";
    SkipAt(" ", 0);
    assert " "[1..] == "";
    TokensOfEmpty();
    assert " "[0..] == " ";
  }
}
