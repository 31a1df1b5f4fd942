/**
 The pipe-placement check the shell runs on a raw input line before cutting
 it into commands (wrongpipe_handler in JCshell.c).

 The line is the text `fgets` returned, normally ending in a newline. The
 edge check looks at the first character and at the character just before
 the last one, which is the character before the newline when there is one.
 */
module PipeSyntax {
  import opened Wrappers

  const Pipe: char := '|'

  /** Why a line is refused. */
  datatype PipeError =
    | PipeAtEdge   // "| cannot be at the start or at the end"
    | DoublePipe   // "|| is not allowed"

  /** The line starts with `|`, or its next-to-last character is `|`.
      For lines shorter than two characters the C code indexes before the
      buffer; the model only looks at positions that exist. */
  predicate PipeAtEdges(line: string)
  {
    (|line| > 0 && line[0] == Pipe) || (|line| >= 2 && line[|line| - 2] == Pipe)
  }

  /** Two `|` characters stand next to each other somewhere in the line. */
  predicate HasDoublePipe(line: string)
  {
    exists i :: 0 <= i < |line| - 1 && line[i] == Pipe && line[i + 1] == Pipe
  }

  /** The verdict on a line: the edge check is made first, so a line that
      fails both is reported as `PipeAtEdge`. */
  function Check(line: string): Option<PipeError>
  {
    if PipeAtEdges(line) then Some(PipeAtEdge)
    else if HasDoublePipe(line) then Some(DoublePipe)
    else None
  }

  /** The scan of wrongpipe_handler: test the edges, then walk the line
      looking at each character and its successor. */
  method WrongPipe(line: string) returns (err: Option<PipeError>)
    ensures err == Check(line)
    ensures err == None <==> !PipeAtEdges(line) && !HasDoublePipe(line)
    ensures err == Some(DoublePipe) ==> HasDoublePipe(line)
  {
    if (|line| > 0 && line[0] == Pipe) || (|line| >= 2 && line[|line| - 2] == Pipe) {
      return Some(PipeAtEdge);
    }
    var i := 0;
    while i < |line| - 1
      invariant 0 <= i <= |line|
      invariant forall j :: 0 <= j < i && j < |line| - 1 ==> !(line[j] == Pipe && line[j + 1] == Pipe)
    {
      if line[i] == Pipe && line[i + 1] == Pipe {
        return Some(DoublePipe);
      }
      i := i + 1;
    }
    return None;
  }

  /** A line that begins with `|` is refused for its edge. */
  lemma LeadingPipeRejected(line: string)
    requires |line| > 0 && line[0] == Pipe
    ensures Check(line) == Some(PipeAtEdge)
  {
  }

  /** A newline-terminated line whose last character before the newline is
      `|` is refused for its edge. */
  lemma TrailingPipeRejected(line: string)
    requires |line| >= 2 && line[|line| - 1] == '\n' && line[|line| - 2] == Pipe
    ensures Check(line) == Some(PipeAtEdge)
  {
  }

  /** Any `||` anywhere in the line makes the check fail; the reason is
      `DoublePipe` unless the edge test already fired. */
  lemma AdjacentPipesRejected(line: string, i: nat)
    requires i + 1 < |line| && line[i] == Pipe && line[i + 1] == Pipe
    ensures Check(line).Some?
    ensures !PipeAtEdges(line) ==> Check(line) == Some(DoublePipe)
  {
  }
}
