# JCshell front end in Dafny

JCshell is a small interactive shell. It reads a line, runs a pipeline of up
to five commands joined by `|`, and prints per-process statistics. This
project models the part of `start_process` in `JCshell.c` that turns a line
into a pipeline, and proves properties of that model:

- **Pipe placement** (`PipeSyntax`, from `wrongpipe_handler`). A line is
  refused when it starts with `|`, when it has `|` just before its newline,
  or when it contains `||`. The edge test comes first.
- **Cutting into commands** (`Commands`, from `parse_commands`). The line is
  cut at every `|`. The model proves that the commands are the line's
  split: joining them with `|` gives the line back, and no command contains
  `|`. Both directions of the round trip are proved in `Text`, which
  defines split and join once for any one-character separator.
- **Tokenizing a command** (`Tokenize`, from the five copy-pasted blocks).
  One trailing newline is dropped. The rest is cut at spaces the way
  repeated `strtok(…, " ")` calls cut it: empty pieces are dropped and at
  most 30 tokens are kept. `Strtok` is the scanning loop. It is proved
  equal to a reference definition built from the generic split.
- **The `exit` built-in** (`ExitCheck`). Only the first command's first
  token is examined.
- **Descriptor wiring** (`Topology`). Each of the five hard-coded
  fork/`dup2`/`close` branches is transcribed as data, one step per call.
  The steps are replayed against the inherited descriptor table, and each
  branch is proved to wire stage `i` as one generic rule says:
  - stdin comes from the read end of pipe `i - 1` unless `i` is the first
    stage;
  - stdout goes to the write end of pipe `i` unless `i` is the last stage;
  - no descriptor stored in the `fd` array is left open in any child or in
    the parent. The first `pipe()` call of each channel is overwritten and
    its descriptors stay open; see "## Left out".

  Pipe `k` is the pair of slots `(2k, 2k + 1)` of the `fd` array. As
  POSIX `pipe()` specifies, slot `2k` is the read end.
- **The whole line** (`Shell`). `Interpret` maps a line to `Rejected(why)`,
  `Terminate` or `Launch(stages)`. It makes the checks in the same order as
  the C code. `Scenarios` works out concrete lines.

Two places where the C code does not do what it evidently means are logged
under "Findings". The rest of the model uses the corrected behaviour.

The code only looks at the first command, so `ls|exit` launches two
stages; `Scenarios.PipedExitLaunches` states this case.

Undefined behaviour in the C code is modelled as the evidently intended
result:

- The edge test reads `line[strlen(line) - 2]` even when the line is shorter
  than two characters. The model only reads positions that exist.
- A command with no tokens would reach `strcmp` (first command) or `execvp`
  (later commands) with a null pointer. Such a command has no program to
  run, so the model refuses the line as `EmptyCommand(i)`.
- The `exit` classifier requires a non-empty argument vector, because
  `strcmp(arguments[0], …)` needs one.

## Model

| member | source | states |
|---|---|---|
| PipeSyntax.WrongPipe | JCshell.c:30-50 | The scan of the line accepts exactly the lines with no pipe character at either edge and no two adjacent pipe characters; an edge pipe character is reported before an adjacent pair; a `DoublePipe` verdict implies an adjacent pair exists |
| PipeSyntax.LeadingPipeRejected | JCshell.c:33-37 | A line starting with the pipe character is refused for its edge |
| PipeSyntax.TrailingPipeRejected | JCshell.c:33-37 | A newline-terminated line with the pipe character just before the newline is refused for its edge |
| PipeSyntax.AdjacentPipesRejected | JCshell.c:40-46 | Two adjacent pipe characters anywhere make the line refused, as `DoublePipe` when the edges are clean |
| Commands.Split | JCshell.c:53-75 | There is one command more than there are pipe characters, none contains the pipe character, and joining them with the pipe character gives the line back |
| Commands.ParseCommands | JCshell.c:53-75 | The left-to-right copy loop produces exactly the split of the line; it counts the commands as the pipes plus one, and the pipes as pipe characters |
| Text.SplitOn | JCshell.c:59-74 | Cutting at a separator gives one piece more than there are separators, none containing it |
| Text.JoinSplit | JCshell.c:59-74 | Joining the pieces of a split with the separator reproduces the original string |
| Text.SplitJoin | JCshell.c:59-74 | Splitting a join of separator-free pieces gives back those pieces |
| Text.SplitUnique | JCshell.c:59-74 | A split is the only list of separator-free pieces that joins to the string |
| Tokenize.StripNewline | JCshell.c:207-220 | At most one character is removed, and it is removed exactly when it is a trailing newline; what stays is a prefix of the command |
| Tokenize.Tokens | JCshell.c:222-227 | Every token strtok returns is non-empty and contains no space |
| Tokenize.NonEmptyAppend | JCshell.c:222-227 | Dropping empty pieces is an in-order filter: it keeps the tokens in source order |
| Tokenize.Strtok | JCshell.c:222-228 | The skip-and-scan loop returns the first 30 pieces of the text between spaces, empty pieces dropped, in order |
| Tokenize.TokenizeCommand | JCshell.c:207-228 | One tokenizing block yields the argument vector of its command: the newline is stripped, then strtok's tokens, at most 30 |
| Tokenize.Argv | JCshell.c:184-202 | The argument vector has at most 30 entries; it is a prefix of the tokens, and all of them when there are fewer than 30 |
| Tokenize.TokensOfJoin | JCshell.c:196-201 | Words without spaces joined by single spaces tokenize back to the same words |
| Tokenize.FirstStageTextAsWritten | JCshell.c:184-196 | The text the first block hands strtok as written starts with the intended newline-stripped command, and differs from it exactly when the command has no newline and leftover stack bytes follow it; those bytes are then appended |
| Tokenize.FirstStageReadsPastCommand | JCshell.c:192-196 | With leftover byte `x`, the first command `ls ` of `ls ` piped into `wc` runs as `ls x` as written, but as `ls` once terminated |
| Tokenize.ExecVector | JCshell.c:197-202 | The NULL-terminated vector fits exactly when there are fewer tokens than slots, ends with the terminator, and holds the tokens in order |
| Tokenize.ThirtyWordsOverflow | JCshell.c:166-202 | A command of thirty words leaves no slot for the terminator in the array as declared |
| Tokenize.ExecVectorFits | JCshell.c:197-202 | With one slot more than the token limit, every command's vector and its terminator fit |
| ExitCheck.Classify | JCshell.c:313-323 | `exit` alone terminates; `exit` with more tokens or more commands is refused; any other first token proceeds; the three cases are exclusive |
| Shell.Interpret | JCshell.c:180-327 | A line is refused for its pipes exactly when the pipe check fails; it terminates exactly when it is a single command whose tokens are just `exit`; a launched pipeline has 1 to 5 stages whose texts join back to the line, each stage's argument vector is the non-empty tokenization of its own text, and the first token is not `exit` |
| Shell.Decide | JCshell.c:313-327 | After the pipe check: `exit` is judged on the first command, more than 5 commands are refused, and a launch keeps every command with a non-empty argument vector whose first token is not `exit` |
| Shell.Wiring | JCshell.c:327-856 | The descriptor wiring of every launched line follows the generic rule |
| Shell.LeadingPipeRunsNothing | JCshell.c:33-37 | A line beginning with the pipe character launches nothing |
| Shell.TrailingPipeRunsNothing | JCshell.c:33-37 | A line whose newline follows a pipe character launches nothing |
| Shell.DoublePipeRunsNothing | JCshell.c:40-46 | A line containing two adjacent pipe characters launches nothing |
| Shell.TooManyCommandsRunNothing | JCshell.c:859-862 | A pipe-valid line of more than 5 commands not starting with `exit` is refused for its length |
| Shell.GoodLineLaunches | JCshell.c:180-327 | A pipe-valid line of at most five commands, each with a token and the first command's first token not `exit`, is launched with every command as a stage; with `Shell.Interpret`, a line is launched exactly in this case |
| Shell.ExitWithExtraRunsNothing | JCshell.c:313-317 | `exit` with arguments, or first in a pipeline, is refused |
| Topology.Apply | JCshell.c:385-387 | `close` removes one descriptor and touches nothing else; `dup2` of an open descriptor redirects exactly the named stream to it, `dup2` of a closed one changes nothing, and `dup2` never changes the table |
| Topology.Spawn | JCshell.c:447-521 | Replaying the parent's steps gives one child per fork; a child forked first runs its calls on the parent's table as given; the parent ends holding exactly the descriptors it did not close |
| Topology.SpawnClose | JCshell.c:494-496 | A close made by the parent before a fork removes that descriptor from the table every later child starts from |
| Topology.SpawnFork | JCshell.c:447-470 | A fork starts its child from the parent's current table and leaves that table unchanged for the steps after it |
| Topology.Branch | JCshell.c:327-856 | The transcribed calls for each command count fork one child per command and have the parent close every pipe slot of the `fd` array |
| Topology.EachPipeConnectsNeighbours | JCshell.c:435-436 | Pipe `k` has exactly one writer, stage `k`, and one reader, stage `k + 1`; slot `2k` is its read end and `2k + 1` its write end |
| Topology.ChildFollowsRule | JCshell.c:560-566 | A child forked from the full table that redirects and then closes every pipe slot is wired as the rule says |
| Topology.GenericBranchFollowsRule | JCshell.c:536-673 | Forking every stage from the untouched table and then closing every slot in the parent wires any number of stages correctly |
| Topology.TwoIsGeneric | JCshell.c:365-429 | The two-command branch makes exactly the generic routine's calls |
| Topology.FourIsGeneric | JCshell.c:536-673 | The four-command branch makes exactly the generic routine's calls |
| Topology.FiveIsGeneric | JCshell.c:676-856 | The five-command branch makes exactly the generic routine's calls |
| Topology.ThreeStageBranchFollowsRule | JCshell.c:432-533 | The three-command branch wires its stages as the rule says and leaves the parent with no pipe descriptor |
| Topology.ThreeStageNeedsEarlyClose | JCshell.c:494-505 | Without the parent's early close of pipe 0, the third child would start its command holding both ends of pipe 0 |
| Topology.HardCodedBranchesFollowRule | JCshell.c:327-856 | Every hard-coded branch, for 1 to 5 commands, follows the rule |
| Scenarios.ExitAloneTerminates | JCshell.c:318-322 | The line `exit` ends the shell |
| Scenarios.ExitWithArgumentRefused | JCshell.c:313-317 | The line `exit now` is refused |
| Scenarios.PipedExitLaunches | JCshell.c:313-318 | `ls` piped into `exit` is not the built-in: it launches both stages |
| Scenarios.SixCommandsRefused | JCshell.c:859-862 | A six-command line is refused for its length |
| Scenarios.BlankStageRefused | JCshell.c:204-229 | A blank middle command makes the line refused as empty at that stage |

## Left out

- `fork`, `execvp`, `kill`, `waitid` and the child's `perror` path are left out. They are process control with no pure contract. A child whose `execvp` fails falls through into shell code; that is not modelled either.
- The `SIGINT` and `SIGUSR1` handlers and `sleep` are signal pacing and are left out.
- `getProcessStatistics` is left out. It reads `/proc` files and prints them.
- The real `pipe()` calls are left out: their allocation, their failure path and the descriptor leak from calling `pipe()` twice per channel. The descriptors of each channel's first call are overwritten in `fd`, stay open in the parent and are inherited by every child; the model tracks only the descriptors stored in `fd`, starting from a table in which every slot is open.
- Recovery by a recursive `start_process()` call is modelled as a `Rejected` outcome. The C code, once the recursive call returns, goes on with the refused line. That continuation is not modelled.
- The prompt, the `fgets` read loop in `main` and the reset of the `isSkip` flag are read-loop glue and are left out. Each line is interpreted on its own.
- Buffer sizes are left out: the 1024-byte line, `fgets` reading up to 1025 bytes, `commands[5][100]` and `temp[100]`. Strings are unbounded. Writing a sixth command into `commands` before the count check is memory corruption and is not modelled.
- NUL bytes inside a line are not modelled; a string ends where its sequence ends.
- Shell.Decide: a command after the first with no tokens is refused as `EmptyCommand(i)`. A command with no tokens has no program to run; the model refuses the line instead of handing `execvp` a null name, as the C code would.
- Shell.Interpret: an empty first command is refused as `EmptyCommand(0)`. The C code passes a null pointer to `strcmp` there.
- ExitCheck.Classify: requires a non-empty argument vector. The C code compares `arguments[0]` with `strcmp` and has no case for a command without tokens; `Shell.Decide` refuses that case before classifying.
- PipeSyntax.WrongPipe: for lines shorter than two characters only the existing positions are examined. The C code reads before the buffer there.

## Findings

| source | as written | input that shows it | evidently intended | confidence | as-written member | corrected member |
|---|---|---|---|---|---|---|
| JCshell.c:194 | The first tokenizing block compares `temp[commandLength]` with the terminator instead of storing it, so a first command without a newline is left unterminated and strtok reads the bytes after it | `ls ` piped into `wc` with the byte `x` left in the buffer after the copied `ls ` | Store the terminator, as the other four blocks do, so that the first stage runs `ls` | high; not executed | Tokenize.FirstStageReadsPastCommand | Tokenize.StripNewline |
| JCshell.c:166-202 | Each block keeps up to 30 tokens and then stores NULL at index 30 of an array declared with 30 slots | A command of thirty one-letter words | Declare 31 slots (or keep at most 29 tokens) so that the terminator fits | high; not executed | Tokenize.ThirtyWordsOverflow | Tokenize.ExecVectorFits |
