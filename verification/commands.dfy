/**
 Cutting a validated input line into the text of its commands
 (parse_commands in JCshell.c).

 Every `|` closes the current command and opens the next one; the last
 command keeps whatever follows the last `|`, including the trailing
 newline. The C code writes each command into a fixed `commands[5][100]`
 table before anyone checks how many there are; the model keeps all of
 them and leaves the "more than five" decision to the caller, which is
 what the table bound evidently meant to allow.
 */
module Commands {
  import opened Text
  import PipeSyntax

  /** The commands of `line`, in order. */
  function Split(line: string): (cmds: seq<string>)
    ensures |cmds| == Count(line, PipeSyntax.Pipe) + 1
    ensures forall k :: 0 <= k < |cmds| ==> PipeSyntax.Pipe !in cmds[k]
    ensures Join(cmds, PipeSyntax.Pipe) == line
  {
    JoinSplit(line, PipeSyntax.Pipe);
    SplitOn(line, PipeSyntax.Pipe)
  }

  /** The left-to-right scan of parse_commands: `start` marks where the
      current command begins, and each `|` copies `line[start..i]` out and
      counts one more command and one more pipe. */
  method ParseCommands(line: string) returns (cmds: seq<string>, numberOfCommands: nat, numberOfPipes: nat)
    ensures cmds == Split(line)
    ensures numberOfCommands == |cmds|
    ensures numberOfPipes == Count(line, PipeSyntax.Pipe)
    ensures numberOfCommands == numberOfPipes + 1
  {
    var start := 0;
    cmds := [];
    numberOfCommands := 0;
    numberOfPipes := 0;
    var i := 0;
    while i < |line|
      invariant 0 <= start <= i <= |line|
      invariant numberOfCommands == |cmds| == numberOfPipes
      invariant forall k :: 0 <= k < |cmds| ==> PipeSyntax.Pipe !in cmds[k]
      invariant PipeSyntax.Pipe !in line[start..i]
      invariant Copied(line, cmds, start)
    {
      if line[i] == PipeSyntax.Pipe {
        CopyAtPipe(line, cmds, start, i);
        cmds := cmds + [line[start..i]];
        numberOfCommands := numberOfCommands + 1;
        numberOfPipes := numberOfPipes + 1;
        start := i + 1;
      } else {
        assert line[start..i + 1] == line[start..i] + [line[i]];
      }
      i := i + 1;
    }
    CopyLast(line, cmds, start);
    cmds := cmds + [line[start..]];
    numberOfCommands := numberOfCommands + 1;
  }

  /** The commands copied so far, each followed by its `|`, are exactly the
      part of the line before `start`. */
  ghost predicate Copied(line: string, cmds: seq<string>, start: nat)
  {
    start <= |line| &&
    (if |cmds| == 0 then start == 0
     else Join(cmds, PipeSyntax.Pipe) + [PipeSyntax.Pipe] == line[..start])
  }

  /** Copying `line[start..j]` out as one more command accounts for the line
      up to `j`. */
  lemma CopyCommand(line: string, cmds: seq<string>, start: nat, j: nat)
    requires start <= j <= |line|
    requires Copied(line, cmds, start)
    ensures Join(cmds + [line[start..j]], PipeSyntax.Pipe) == line[..j]
  {
    var piece := line[start..j];
    assert line[..j] == line[..start] + piece;
    if |cmds| > 0 {
      JoinSnoc(cmds, piece, PipeSyntax.Pipe);
    } else {
      assert cmds + [piece] == [piece];
    }
  }

  /** At a `|`, the command before it is copied out and the next one starts
      after it. */
  lemma CopyAtPipe(line: string, cmds: seq<string>, start: nat, i: nat)
    requires start <= i < |line| && line[i] == PipeSyntax.Pipe
    requires Copied(line, cmds, start)
    ensures Copied(line, cmds + [line[start..i]], i + 1)
  {
    CopyCommand(line, cmds, start, i);
    assert line[..i + 1] == line[..i] + [PipeSyntax.Pipe];
  }

  /** At the end of the line, the rest is the last command, and the copied
      commands are the line's split. */
  lemma CopyLast(line: string, cmds: seq<string>, start: nat)
    requires start <= |line|
    requires Copied(line, cmds, start)
    requires forall k :: 0 <= k < |cmds| ==> PipeSyntax.Pipe !in cmds[k]
    requires PipeSyntax.Pipe !in line[start..]
    ensures cmds + [line[start..]] == Split(line)
  {
    CopyCommand(line, cmds, start, |line|);
    assert line[..|line|] == line;
    var all := cmds + [line[start..]];
    assert forall k :: 0 <= k < |all| ==> PipeSyntax.Pipe !in all[k];
    SplitUnique(line, all, PipeSyntax.Pipe);
  }
}
