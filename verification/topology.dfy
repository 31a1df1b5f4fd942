/**
 How the stages of a pipeline are wired to each other (the per-stage-count
 `dup2`/`close` sequences of start_process in JCshell.c), as data.

 For N commands the shell fills an array `fd[2 * (N - 1)]` with N - 1
 pipes: pipe k occupies `fd[2k]` and `fd[2k + 1]`, and, as POSIX `pipe()`
 specifies, element 0 of each pair is the read end and element 1 the write
 end. Descriptors are named here by their index in that array. Every
 forked child starts with a copy of the parent's table as it is at the
 moment of the fork, applies its own `dup2`/`close` calls, and then
 executes its command; the parent closes its copies once all children are
 forked.
 */
module Topology {

  /** The two standard streams a pipe end can be duplicated onto. */
  datatype Std = StdIn | StdOut

  /** One descriptor call made in a child before `execvp`. */
  datatype Op =
    | Dup2(fd: nat, onto: Std)  // dup2(fd[fd], STDIN_FILENO / STDOUT_FILENO)
    | Close(fd: nat)            // close(fd[fd])

  /** Where a standard stream of a stage is connected. */
  datatype Endpoint = Terminal | PipeFd(fd: nat)

  /** The pipe-related part of a process: which pipe descriptors it still
      holds, and what its standard input and output are. */
  datatype Proc = Proc(open: set<nat>, input: Endpoint, output: Endpoint)

  /** What the parent does, in order: fork a child that runs `ops`, or close
      one of its own descriptors. */
  datatype Step = Fork(ops: seq<Op>) | ParentClose(fd: nat)

  /** The children's final wiring, in fork order, and the descriptors the
      parent still holds at the end. */
  datatype Spawned = Spawned(children: seq<Proc>, parentOpen: set<nat>)

  /** Index of the read end of pipe `k`. */
  function ReadEnd(k: nat): nat { 2 * k }

  /** Index of the write end of pipe `k`. */
  function WriteEnd(k: nat): nat { 2 * k + 1 }

  /** Which pipe a descriptor belongs to. */
  function PipeOf(fd: nat): nat { fd / 2 }

  /** Even indices are read ends, odd ones write ends. */
  predicate IsReadEnd(fd: nat) { fd % 2 == 0 }

  /** The descriptors `lo .. hi - 1`. */
  function Fds(lo: nat, hi: nat): (fds: set<nat>)
    ensures forall fd :: fd in fds <==> lo <= fd < hi
    decreases hi - lo
  {
    if lo >= hi then {} else {lo} + Fds(lo + 1, hi)
  }

  /** The descriptors of the pipes of an `n`-stage pipeline. */
  function PipeFds(n: nat): set<nat>
    requires n >= 1
  {
    Fds(0, 2 * (n - 1))
  }

  /** Effect of one call. `dup2` of a descriptor that is already closed
      fails and changes nothing; closing a closed one is harmless. */
  function Apply(p: Proc, op: Op): (q: Proc)
    ensures q.open <= p.open
    ensures op.Close? ==> q.open == p.open - {op.fd} && q.input == p.input && q.output == p.output
    ensures op.Dup2? ==> q.open == p.open
    ensures op.Dup2? && op.fd !in p.open ==> q == p
    ensures op.Dup2? && op.fd in p.open ==>
              (op.onto == StdIn ==> q.input == PipeFd(op.fd) && q.output == p.output) &&
              (op.onto == StdOut ==> q.output == PipeFd(op.fd) && q.input == p.input)
  {
    match op
    case Close(fd) => p.(open := p.open - {fd})
    case Dup2(fd, StdIn) => if fd in p.open then p.(input := PipeFd(fd)) else p
    case Dup2(fd, StdOut) => if fd in p.open then p.(output := PipeFd(fd)) else p
  }

  /** Effect of a sequence of calls, in order. */
  function Run(p: Proc, ops: seq<Op>): Proc
    decreases |ops|
  {
    if |ops| == 0 then p else Run(Apply(p, ops[0]), ops[1..])
  }

  /** Number of children the steps fork. */
  function ForkCount(steps: seq<Step>): nat
    decreases |steps|
  {
    if |steps| == 0 then 0
    else (if steps[0].Fork? then 1 else 0) + ForkCount(steps[1..])
  }

  /** Descriptors the parent closes in the steps. */
  function ParentClosed(steps: seq<Step>): set<nat>
    decreases |steps|
  {
    if |steps| == 0 then {}
    else (if steps[0].ParentClose? then {steps[0].fd} else {}) + ParentClosed(steps[1..])
  }

  /** Replays the parent's steps from a table holding `open`: each fork
      starts a child from the table as it stands at that moment. */
  function Spawn(steps: seq<Step>, open: set<nat>): (s: Spawned)
    ensures |s.children| == ForkCount(steps) <= |steps|
    ensures s.parentOpen == open - ParentClosed(steps)
    ensures |steps| > 0 && steps[0].Fork? ==>
              |s.children| > 0 && s.children[0] == Run(Proc(open, Terminal, Terminal), steps[0].ops)
    decreases |steps|
  {
    if |steps| == 0 then Spawned([], open)
    else match steps[0]
      case Fork(ops) =>
        var rest := Spawn(steps[1..], open);
        Spawned([Run(Proc(open, Terminal, Terminal), ops)] + rest.children, rest.parentOpen)
      case ParentClose(fd) => Spawn(steps[1..], open - {fd})
  }

  // ---------------------------------------------------------------------
  // The rule every branch is meant to follow
  // ---------------------------------------------------------------------

  /** Stage `i` of `n` reads the read end of pipe `i - 1` unless it is the
      first stage, writes the write end of pipe `i` unless it is the last,
      and holds no pipe descriptor when it starts its command. */
  function Rule(n: nat, i: nat): Proc
    requires i < n
  {
    Proc({},
         if i == 0 then Terminal else PipeFd(ReadEnd(i - 1)),
         if i == n - 1 then Terminal else PipeFd(WriteEnd(i)))
  }

  /** A spawn result follows the rule for `n` stages: one child per stage,
      each wired as `Rule` says, and the parent left without pipe
      descriptors. */
  predicate FollowsRule(s: Spawned, n: nat)
  {
    |s.children| == n &&
    (forall i :: 0 <= i < n ==> s.children[i] == Rule(n, i)) &&
    s.parentOpen == {}
  }

  /** Pipe `k` of an `n`-stage pipeline has exactly one writer, stage `k`,
      and exactly one reader, stage `k + 1`; the ends are the ones POSIX
      assigns. */
  lemma EachPipeConnectsNeighbours(n: nat, k: nat, j: nat)
    requires k + 1 < n && j < n
    ensures Rule(n, j).output == PipeFd(WriteEnd(k)) <==> j == k
    ensures Rule(n, j).input == PipeFd(ReadEnd(k)) <==> j == k + 1
    ensures IsReadEnd(ReadEnd(k)) && !IsReadEnd(WriteEnd(k))
    ensures PipeOf(ReadEnd(k)) == k == PipeOf(WriteEnd(k))
  {
  }

  // ---------------------------------------------------------------------
  // The hard-coded branches of start_process
  // ---------------------------------------------------------------------

  /** The calls made for `n` commands, transcribed branch by branch: one
      fork per command, and the parent closes every pipe slot. */
  function Branch(n: nat): (steps: seq<Step>)
    requires 1 <= n <= 5
    ensures ForkCount(steps) == n
    ensures ParentClosed(steps) == PipeFds(n)
  {
    if n == 1 then OneCommand()
    else if n == 2 then TwoCommands()
    else if n == 3 then ThreeCommands()
    else if n == 4 then FourCommands()
    else FiveCommands()
  }

  /** A single command runs with the inherited descriptors. */
  function OneCommand(): (steps: seq<Step>)
    ensures ForkCount(steps) == 1 && ParentClosed(steps) == PipeFds(1)
  {
    [Fork([])]
  }

  function TwoCommands(): (steps: seq<Step>)
    ensures ForkCount(steps) == 2 && ParentClosed(steps) == PipeFds(2)
  {
    var forks := [Fork([Dup2(1, StdOut), Close(0), Close(1)]),
                  Fork([Dup2(0, StdIn), Close(0), Close(1)])];
    StepsAppend(forks, ParentCloses(0, 2));
    forks + ParentCloses(0, 2)
  }

  /** The parent closes pipe 0 between the second and the third fork. */
  function ThreeCommands(): (steps: seq<Step>)
    ensures ForkCount(steps) == 3 && ParentClosed(steps) == PipeFds(3)
  {
    var early := [Fork([Close(2), Close(3), Dup2(1, StdOut), Close(0), Close(1)]),
                  Fork([Close(1), Dup2(0, StdIn), Close(2), Dup2(3, StdOut), Close(0), Close(3)]),
                  ParentClose(0), ParentClose(1),
                  Fork([Close(3), Dup2(2, StdIn), Close(2)])];
    EarlyOfThree(early);
    early + ParentCloses(0, 4)
  }

  function FourCommands(): (steps: seq<Step>)
    ensures ForkCount(steps) == 4 && ParentClosed(steps) == PipeFds(4)
  {
    var forks := [Fork([Dup2(1, StdOut)] + CloseAll(6)),
                  Fork([Dup2(0, StdIn), Dup2(3, StdOut)] + CloseAll(6)),
                  Fork([Dup2(2, StdIn), Dup2(5, StdOut)] + CloseAll(6)),
                  Fork([Dup2(4, StdIn)] + CloseAll(6))];
    OnlyForks(forks);
    StepsAppend(forks, ParentCloses(0, 6));
    forks + ParentCloses(0, 6)
  }

  function FiveCommands(): (steps: seq<Step>)
    ensures ForkCount(steps) == 5 && ParentClosed(steps) == PipeFds(5)
  {
    var forks := [Fork([Dup2(1, StdOut)] + CloseAll(8)),
                  Fork([Dup2(0, StdIn), Dup2(3, StdOut)] + CloseAll(8)),
                  Fork([Dup2(2, StdIn), Dup2(5, StdOut)] + CloseAll(8)),
                  Fork([Dup2(4, StdIn), Dup2(7, StdOut)] + CloseAll(8)),
                  Fork([Dup2(6, StdIn)] + CloseAll(8))];
    OnlyForks(forks);
    StepsAppend(forks, ParentCloses(0, 8));
    forks + ParentCloses(0, 8)
  }

  /** A list of forks alone forks one child per step and closes nothing in
      the parent. */
  lemma {:induction false} OnlyForks(steps: seq<Step>)
    requires forall k :: 0 <= k < |steps| ==> steps[k].Fork?
    ensures ForkCount(steps) == |steps| && ParentClosed(steps) == {}
    decreases |steps|
  {
    if |steps| > 0 {
      OnlyForks(steps[1..]);
    }
  }

  /** The three-command branch forks three children and the parent closes
      every slot, given its first five steps. */
  lemma EarlyOfThree(early: seq<Step>)
    requires |early| == 5 && early[0].Fork? && early[1].Fork? && early[4].Fork?
    requires early[2] == ParentClose(0) && early[3] == ParentClose(1)
    ensures ForkCount(early + ParentCloses(0, 4)) == 3
    ensures ParentClosed(early + ParentCloses(0, 4)) == PipeFds(3)
  {
    EarlyCounts(early);
    StepsAppend(early, ParentCloses(0, 4));
    assert {0, 1} + Fds(0, 4) == PipeFds(3);
  }

  /** The first five steps of the three-command branch. */
  lemma EarlyCounts(early: seq<Step>)
    requires |early| == 5 && early[0].Fork? && early[1].Fork? && early[4].Fork?
    requires early[2] == ParentClose(0) && early[3] == ParentClose(1)
    ensures ForkCount(early) == 3 && ParentClosed(early) == {0, 1}
  {
    assert early[4..][1..] == [];
    assert ForkCount(early[4..]) == 1 && ParentClosed(early[4..]) == {};
    assert early[3..][1..] == early[4..];
    assert ForkCount(early[3..]) == 1 && ParentClosed(early[3..]) == {1};
    assert early[2..][1..] == early[3..];
    assert ForkCount(early[2..]) == 1 && ParentClosed(early[2..]) == {0, 1};
    assert early[1..][1..] == early[2..];
    assert ForkCount(early[1..]) == 2 && ParentClosed(early[1..]) == {0, 1};
  }

  /** `close(fd[0]); … close(fd[m - 1]);` in a child. */
  function CloseAll(m: nat): seq<Op>
  {
    Closes(0, m)
  }

  /** `close(fd[lo]); … close(fd[hi - 1]);` */
  function Closes(lo: nat, hi: nat): (ops: seq<Op>)
    ensures |ops| == if lo < hi then hi - lo else 0
    ensures forall k :: 0 <= k < |ops| ==> ops[k] == Close(lo + k)
    decreases hi - lo
  {
    if lo >= hi then [] else [Close(lo)] + Closes(lo + 1, hi)
  }

  /** The same closes, made by the parent. */
  function ParentCloses(lo: nat, hi: nat): (steps: seq<Step>)
    ensures |steps| == if lo < hi then hi - lo else 0
    ensures forall k :: 0 <= k < |steps| ==> steps[k] == ParentClose(lo + k)
    ensures ForkCount(steps) == 0 && ParentClosed(steps) == Fds(lo, hi)
    decreases hi - lo
  {
    if lo >= hi then []
    else
      var rest := ParentCloses(lo + 1, hi);
      assert ([ParentClose(lo)] + rest)[1..] == rest;
      [ParentClose(lo)] + rest
  }

  /** Forks and parent closes of two step lists run one after the other. */
  lemma {:induction false} StepsAppend(a: seq<Step>, b: seq<Step>)
    ensures ForkCount(a + b) == ForkCount(a) + ForkCount(b)
    ensures ParentClosed(a + b) == ParentClosed(a) + ParentClosed(b)
    decreases |a|
  {
    if |a| > 0 {
      assert (a + b)[0] == a[0];
      assert (a + b)[1..] == a[1..] + b;
      StepsAppend(a[1..], b);
    } else {
      assert a + b == b;
    }
  }

  // ---------------------------------------------------------------------
  // One routine for any number of stages
  // ---------------------------------------------------------------------

  /** The redirections of stage `i` of `n`: its input from the previous
      pipe, its output into the next one. */
  function Redirects(n: nat, i: nat): seq<Op>
  {
    (if i > 0 then [Dup2(ReadEnd(i - 1), StdIn)] else []) +
    (if i + 1 < n then [Dup2(WriteEnd(i), StdOut)] else [])
  }

  /** Stage `i` redirects, then closes every pipe descriptor. */
  function ChildOps(n: nat, i: nat): seq<Op>
    requires n >= 1
  {
    Redirects(n, i) + CloseAll(2 * (n - 1))
  }

  /** Fork every stage in order from the untouched table, then close every
      pipe descriptor in the parent. */
  function GenericBranch(n: nat): seq<Step>
    requires n >= 1
  {
    Forks(n, 0) + ParentCloses(0, 2 * (n - 1))
  }

  /** Forks of stages `i .. n - 1`. */
  function Forks(n: nat, i: nat): (steps: seq<Step>)
    requires n >= 1
    ensures |steps| == if i < n then n - i else 0
    ensures forall k :: 0 <= k < |steps| ==> steps[k] == Fork(ChildOps(n, i + k))
    decreases n - i
  {
    if i >= n then [] else [Fork(ChildOps(n, i))] + Forks(n, i + 1)
  }

  /** Running two call sequences one after the other. */
  lemma {:induction false} RunConcat(p: Proc, a: seq<Op>, b: seq<Op>)
    ensures Run(p, a + b) == Run(Run(p, a), b)
    decreases |a|
  {
    if |a| > 0 {
      assert (a + b)[0] == a[0];
      assert (a + b)[1..] == a[1..] + b;
      RunConcat(Apply(p, a[0]), a[1..], b);
    } else {
      assert a + b == b;
    }
  }

  /** A run of closes removes exactly those descriptors and leaves the
      standard streams alone. */
  lemma {:induction false} RunCloses(p: Proc, lo: nat, hi: nat)
    ensures Run(p, Closes(lo, hi)) == p.(open := p.open - Fds(lo, hi))
    decreases hi - lo
  {
    if lo < hi {
      RunCloses(p.(open := p.open - {lo}), lo + 1, hi);
      assert p.open - {lo} - Fds(lo + 1, hi) == p.open - Fds(lo, hi);
    } else {
      assert p.open - Fds(lo, hi) == p.open;
    }
  }

  /** Closes made by the parent fork nothing and remove exactly those
      descriptors from its table. */
  lemma {:induction false} SpawnParentCloses(open: set<nat>, lo: nat, hi: nat)
    ensures Spawn(ParentCloses(lo, hi), open) == Spawned([], open - Fds(lo, hi))
    decreases hi - lo
  {
    if lo < hi {
      var steps := ParentCloses(lo, hi);
      assert steps[1..] == ParentCloses(lo + 1, hi);
      SpawnParentCloses(open - {lo}, lo + 1, hi);
      assert open - {lo} - Fds(lo + 1, hi) == open - Fds(lo, hi);
    } else {
      assert open - Fds(lo, hi) == open;
    }
  }

  /** When the first steps only fork, they do not change the table the
      later steps start from. */
  lemma {:induction false} SpawnForksThen(forks: seq<Step>, tail: seq<Step>, open: set<nat>)
    requires forall k :: 0 <= k < |forks| ==> forks[k].Fork?
    ensures Spawn(forks + tail, open)
         == Spawned(Spawn(forks, open).children + Spawn(tail, open).children, Spawn(tail, open).parentOpen)
    decreases |forks|
  {
    if |forks| > 0 {
      assert (forks + tail)[0] == forks[0];
      assert (forks + tail)[1..] == forks[1..] + tail;
      SpawnForksThen(forks[1..], tail, open);
      var c := Run(Proc(open, Terminal, Terminal), forks[0].ops);
      assert [c] + (Spawn(forks[1..], open).children + Spawn(tail, open).children)
          == ([c] + Spawn(forks[1..], open).children) + Spawn(tail, open).children;
    } else {
      assert forks + tail == tail;
    }
  }

  /** A child forked from the untouched table ends up wired as the rule
      says. */
  lemma ChildFollowsRule(n: nat, i: nat)
    requires i < n
    ensures Run(Proc(PipeFds(n), Terminal, Terminal), ChildOps(n, i)) == Rule(n, i)
  {
    var p := Proc(PipeFds(n), Terminal, Terminal);
    var m := 2 * (n - 1);
    RunConcat(p, Redirects(n, i), CloseAll(m));
    var input := if i == 0 then Terminal else PipeFd(ReadEnd(i - 1));
    var output := if i == n - 1 then Terminal else PipeFd(WriteEnd(i));
    var a := if i > 0 then [Dup2(ReadEnd(i - 1), StdIn)] else [];
    var b := if i + 1 < n then [Dup2(WriteEnd(i), StdOut)] else [];
    RunConcat(p, a, b);
    assert Run(p, a) == p.(input := input);
    assert Run(p.(input := input), b) == Proc(PipeFds(n), input, output);
    RunCloses(Proc(PipeFds(n), input, output), 0, m);
    assert PipeFds(n) - Fds(0, m) == {};
  }

  /** Steps that only fork leave the parent's table alone and start every
      child from it. */
  lemma {:induction false} SpawnOnlyForks(steps: seq<Step>, open: set<nat>)
    requires forall k :: 0 <= k < |steps| ==> steps[k].Fork?
    ensures Spawn(steps, open).parentOpen == open
    ensures |Spawn(steps, open).children| == |steps|
    ensures forall k :: 0 <= k < |steps| ==>
              Spawn(steps, open).children[k] == Run(Proc(open, Terminal, Terminal), steps[k].ops)
    decreases |steps|
  {
    OnlyForks(steps);
    if |steps| > 0 {
      var rest := steps[1..];
      SpawnOnlyForks(rest, open);
      var children := Spawn(steps, open).children;
      assert children == [Run(Proc(open, Terminal, Terminal), steps[0].ops)] + Spawn(rest, open).children;
      forall k | 0 < k < |steps|
        ensures children[k] == Run(Proc(open, Terminal, Terminal), steps[k].ops)
      {
        assert children[k] == Spawn(rest, open).children[k - 1];
        assert rest[k - 1] == steps[k];
      }
    }
  }

  /** Replaying a fork step. */
  lemma SpawnFork(ops: seq<Op>, tail: seq<Step>, open: set<nat>)
    ensures Spawn([Fork(ops)] + tail, open)
         == Spawned([Run(Proc(open, Terminal, Terminal), ops)] + Spawn(tail, open).children,
                    Spawn(tail, open).parentOpen)
  {
    assert ([Fork(ops)] + tail)[1..] == tail;
  }

  /** Replaying a close made by the parent. */
  lemma SpawnClose(fd: nat, tail: seq<Step>, open: set<nat>)
    ensures Spawn([ParentClose(fd)] + tail, open) == Spawn(tail, open - {fd})
  {
    assert ([ParentClose(fd)] + tail)[1..] == tail;
  }

  /** Running one call, then the rest. */
  lemma RunCons(p: Proc, op: Op, rest: seq<Op>)
    ensures Run(p, [op] + rest) == Run(Apply(p, op), rest)
  {
    assert ([op] + rest)[1..] == rest;
  }

  /** The generic routine wires any number of stages correctly: every stage
      as the rule says, and the parent left holding no pipe descriptor. */
  lemma GenericBranchFollowsRule(n: nat)
    requires n >= 1
    ensures FollowsRule(Spawn(GenericBranch(n), PipeFds(n)), n)
  {
    var m := 2 * (n - 1);
    var forks := Forks(n, 0);
    SpawnForksThen(forks, ParentCloses(0, m), PipeFds(n));
    SpawnOnlyForks(forks, PipeFds(n));
    SpawnParentCloses(PipeFds(n), 0, m);
    assert PipeFds(n) - Fds(0, m) == {};
    var s := Spawn(GenericBranch(n), PipeFds(n));
    assert s.children == Spawn(forks, PipeFds(n)).children + [];
    forall i | 0 <= i < n
      ensures s.children[i] == Rule(n, i)
    {
      ChildFollowsRule(n, i);
    }
  }

  // ---------------------------------------------------------------------
  // The hard-coded branches against the rule
  // ---------------------------------------------------------------------

  /** For one, two, four and five commands the source's calls are exactly
      the generic routine's. */
  lemma BranchIsGeneric(n: nat)
    requires n == 1 || n == 2 || n == 4 || n == 5
    ensures Branch(n) == GenericBranch(n)
  {
    if n == 1 {
      assert Forks(1, 0) == [Fork(ChildOps(1, 0))];
      assert ChildOps(1, 0) == [];
    } else if n == 2 {
      TwoIsGeneric();
    } else if n == 4 {
      FourIsGeneric();
    } else {
      FiveIsGeneric();
    }
  }

  lemma TwoIsGeneric()
    ensures Branch(2) == GenericBranch(2)
  {
    assert Closes(0, 2) == [Close(0), Close(1)];
    assert ChildOps(2, 0) == [Dup2(1, StdOut), Close(0), Close(1)];
    assert ChildOps(2, 1) == [Dup2(0, StdIn), Close(0), Close(1)];
    assert Forks(2, 0) == [Fork(ChildOps(2, 0)), Fork(ChildOps(2, 1))];
    assert ParentCloses(0, 2) == [ParentClose(0), ParentClose(1)];
  }

  lemma FourIsGeneric()
    ensures Branch(4) == GenericBranch(4)
  {
    FourForksAre();
    assert Branch(4) == FourCommands();
    assert GenericBranch(4) == Forks(4, 0) + ParentCloses(0, 6);
  }

  /** The generic forks for four commands, written out as the source's. */
  lemma FourForksAre()
    ensures Forks(4, 0) == [Fork([Dup2(1, StdOut)] + CloseAll(6)),
                            Fork([Dup2(0, StdIn), Dup2(3, StdOut)] + CloseAll(6)),
                            Fork([Dup2(2, StdIn), Dup2(5, StdOut)] + CloseAll(6)),
                            Fork([Dup2(4, StdIn)] + CloseAll(6))]
  {
    FourForks();
    FirstChild(4);
    MiddleChild(4, 1);
    MiddleChild(4, 2);
    LastChild(4);
  }

  lemma FourForks()
    ensures Forks(4, 0) == [Fork(ChildOps(4, 0)), Fork(ChildOps(4, 1)), Fork(ChildOps(4, 2)), Fork(ChildOps(4, 3))]
  {
  }

  lemma FiveIsGeneric()
    ensures Branch(5) == GenericBranch(5)
  {
    FiveForksAre();
    assert Branch(5) == FiveCommands();
    assert GenericBranch(5) == Forks(5, 0) + ParentCloses(0, 8);
  }

  /** The generic forks for five commands, written out as the source's. */
  lemma FiveForksAre()
    ensures Forks(5, 0) == [Fork([Dup2(1, StdOut)] + CloseAll(8)),
                            Fork([Dup2(0, StdIn), Dup2(3, StdOut)] + CloseAll(8)),
                            Fork([Dup2(2, StdIn), Dup2(5, StdOut)] + CloseAll(8)),
                            Fork([Dup2(4, StdIn), Dup2(7, StdOut)] + CloseAll(8)),
                            Fork([Dup2(6, StdIn)] + CloseAll(8))]
  {
    FiveForks();
    FirstChild(5);
    MiddleChild(5, 1);
    MiddleChild(5, 2);
    MiddleChild(5, 3);
    LastChild(5);
  }

  lemma FiveForks()
    ensures Forks(5, 0) == [Fork(ChildOps(5, 0)), Fork(ChildOps(5, 1)), Fork(ChildOps(5, 2)),
                            Fork(ChildOps(5, 3)), Fork(ChildOps(5, 4))]
  {
  }

  /** The first of several stages only redirects its output. */
  lemma FirstChild(n: nat)
    requires n > 1
    ensures ChildOps(n, 0) == [Dup2(WriteEnd(0), StdOut)] + CloseAll(2 * (n - 1))
  {
  }

  /** A middle stage redirects both ends. */
  lemma MiddleChild(n: nat, i: nat)
    requires 0 < i && i + 1 < n
    ensures ChildOps(n, i) == [Dup2(ReadEnd(i - 1), StdIn), Dup2(WriteEnd(i), StdOut)] + CloseAll(2 * (n - 1))
  {
  }

  /** The last of several stages only redirects its input. */
  lemma LastChild(n: nat)
    requires n > 1
    ensures ChildOps(n, n - 1) == [Dup2(ReadEnd(n - 2), StdIn)] + CloseAll(2 * (n - 1))
  {
  }

  /** The three-command branch follows the rule too, but its third child
      closes only pipe 1 itself: it is clean because the parent closed
      pipe 0 before forking it. */
  lemma ThreeStageBranchFollowsRule()
    ensures FollowsRule(Spawn(Branch(3), PipeFds(3)), 3)
  {
    var full := PipeFds(3);
    assert full == {0, 1, 2, 3};
    ThreeStageSpawn(full);
  }

  /** The three-command branch replayed step by step. */
  lemma ThreeStageSpawn(full: set<nat>)
    requires full == {0, 1, 2, 3}
    ensures Spawn(Branch(3), full) == Spawned([Rule(3, 0), Rule(3, 1), Rule(3, 2)], {})
  {
    ThreeStageShape();
    SpawnThreeCommands(full);
  }

  /** The three-command branch, written as fork and close steps, replayed. */
  lemma SpawnThreeCommands(full: set<nat>)
    requires full == {0, 1, 2, 3}
    ensures Spawn([Fork([Close(2), Close(3), Dup2(1, StdOut), Close(0), Close(1)])] +
                  ([Fork([Close(1), Dup2(0, StdIn), Close(2), Dup2(3, StdOut), Close(0), Close(3)])] +
                  ([ParentClose(0)] + ([ParentClose(1)] +
                  ([Fork([Close(3), Dup2(2, StdIn), Close(2)])] + ParentCloses(0, 4))))), full)
         == Spawned([Rule(3, 0), Rule(3, 1), Rule(3, 2)], {})
  {
    var ops0 := [Close(2), Close(3), Dup2(1, StdOut), Close(0), Close(1)];
    var ops1 := [Close(1), Dup2(0, StdIn), Close(2), Dup2(3, StdOut), Close(0), Close(3)];
    var later := [ParentClose(0)] + ([ParentClose(1)] + ([Fork([Close(3), Dup2(2, StdIn), Close(2)])] + ParentCloses(0, 4)));
    FirstOfThree(full);
    MiddleOfThree(full);
    ThreeStageAfterEarlyClose(full);
    SpawnFork(ops1, later, full);
    SpawnFork(ops0, [Fork(ops1)] + later, full);
  }

  /** From the parent's early close of pipe 0 on, the three-command branch
      forks the third child, wired as the rule says, and ends with no pipe
      descriptor open. */
  lemma ThreeStageAfterEarlyClose(full: set<nat>)
    requires full == {0, 1, 2, 3}
    ensures Spawn([ParentClose(0)] + ([ParentClose(1)] + ([Fork([Close(3), Dup2(2, StdIn), Close(2)])] + ParentCloses(0, 4))), full)
         == Spawned([Rule(3, 2)], {})
  {
    var ops2 := [Close(3), Dup2(2, StdIn), Close(2)];
    var tail := ParentCloses(0, 4);
    var late := full - {0} - {1};
    assert late == {2, 3};
    LastOfThree(late);
    SpawnParentCloses(late, 0, 4);
    assert late - Fds(0, 4) == {};
    SpawnFork(ops2, tail, late);
    SpawnClose(1, [Fork(ops2)] + tail, full - {0});
    SpawnClose(0, [ParentClose(1)] + ([Fork(ops2)] + tail), full);
  }

  /** The three-command branch as fork and close steps. */
  lemma ThreeStageShape()
    ensures Branch(3)
         == [Fork([Close(2), Close(3), Dup2(1, StdOut), Close(0), Close(1)])] +
            ([Fork([Close(1), Dup2(0, StdIn), Close(2), Dup2(3, StdOut), Close(0), Close(3)])] +
            ([ParentClose(0)] + ([ParentClose(1)] +
            ([Fork([Close(3), Dup2(2, StdIn), Close(2)])] + ParentCloses(0, 4)))))
  {
    ThreeCommandsShape();
  }

  lemma ThreeCommandsShape()
    ensures ThreeCommands()
         == [Fork([Close(2), Close(3), Dup2(1, StdOut), Close(0), Close(1)])] +
            ([Fork([Close(1), Dup2(0, StdIn), Close(2), Dup2(3, StdOut), Close(0), Close(3)])] +
            ([ParentClose(0)] + ([ParentClose(1)] +
            ([Fork([Close(3), Dup2(2, StdIn), Close(2)])] + ParentCloses(0, 4)))))
  {
  }

  /** First child of the three-command branch. */
  lemma FirstOfThree(full: set<nat>)
    requires full == {0, 1, 2, 3}
    ensures Run(Proc(full, Terminal, Terminal), [Close(2), Close(3), Dup2(1, StdOut), Close(0), Close(1)]) == Rule(3, 0)
  {
    var p := Proc(full, Terminal, Terminal);
    RunCons(p, Close(2), [Close(3), Dup2(1, StdOut), Close(0), Close(1)]);
    var p1 := Apply(p, Close(2));
    RunCons(p1, Close(3), [Dup2(1, StdOut), Close(0), Close(1)]);
    var p2 := Apply(p1, Close(3));
    RunCons(p2, Dup2(1, StdOut), [Close(0), Close(1)]);
    var p3 := Apply(p2, Dup2(1, StdOut));
    assert p3 == Proc({0, 1}, Terminal, PipeFd(1));
    RunCons(p3, Close(0), [Close(1)]);
    RunCons(Apply(p3, Close(0)), Close(1), []);
    assert Proc({0, 1}, Terminal, PipeFd(1)).open - {0} - {1} == {};
  }

  /** Second child of the three-command branch. */
  lemma MiddleOfThree(full: set<nat>)
    requires full == {0, 1, 2, 3}
    ensures Run(Proc(full, Terminal, Terminal),
                [Close(1), Dup2(0, StdIn), Close(2), Dup2(3, StdOut), Close(0), Close(3)]) == Rule(3, 1)
  {
    var p := Proc(full, Terminal, Terminal);
    RunCons(p, Close(1), [Dup2(0, StdIn), Close(2), Dup2(3, StdOut), Close(0), Close(3)]);
    var p1 := Apply(p, Close(1));
    RunCons(p1, Dup2(0, StdIn), [Close(2), Dup2(3, StdOut), Close(0), Close(3)]);
    var p2 := Apply(p1, Dup2(0, StdIn));
    RunCons(p2, Close(2), [Dup2(3, StdOut), Close(0), Close(3)]);
    var p3 := Apply(p2, Close(2));
    assert p3 == Proc({0, 3}, PipeFd(0), Terminal);
    RunCons(p3, Dup2(3, StdOut), [Close(0), Close(3)]);
    var p4 := Apply(p3, Dup2(3, StdOut));
    RunCons(p4, Close(0), [Close(3)]);
    RunCons(Apply(p4, Close(0)), Close(3), []);
    assert p4.open - {0} - {3} == {};
  }

  /** Third child of the three-command branch, forked after the parent
      dropped pipe 0. */
  lemma LastOfThree(late: set<nat>)
    requires late == {2, 3}
    ensures Run(Proc(late, Terminal, Terminal), [Close(3), Dup2(2, StdIn), Close(2)]) == Rule(3, 2)
  {
    var p := Proc(late, Terminal, Terminal);
    RunCons(p, Close(3), [Dup2(2, StdIn), Close(2)]);
    var p1 := Apply(p, Close(3));
    RunCons(p1, Dup2(2, StdIn), [Close(2)]);
    RunCons(Apply(p1, Dup2(2, StdIn)), Close(2), []);
    assert late - {3} - {2} == {};
  }

  /** Every hard-coded branch wires each stage as the rule says and leaves
      the parent holding no pipe descriptor. */
  lemma HardCodedBranchesFollowRule(n: nat)
    requires 1 <= n <= 5
    ensures FollowsRule(Spawn(Branch(n), PipeFds(n)), n)
  {
    if n == 3 {
      ThreeStageBranchFollowsRule();
    } else {
      BranchIsGeneric(n);
      GenericBranchFollowsRule(n);
    }
  }

  /** The three-command branch without the parent's early close of pipe 0:
      the third child would then inherit both ends of pipe 0 and start its
      command with them open. */
  lemma ThreeStageNeedsEarlyClose()
    ensures var steps := Branch(3)[..2] + Branch(3)[4..];
            |Spawn(steps, PipeFds(3)).children| == 3 &&
            Spawn(steps, PipeFds(3)).children[2].open == {0, 1}
  {
    var full := PipeFds(3);
    assert full == {0, 1, 2, 3};
    WithoutEarlyCloseShape();
    SpawnWithoutEarlyClose(full);
  }

  /** Replaying the three-command branch without its early closes. */
  lemma SpawnWithoutEarlyClose(full: set<nat>)
    requires full == {0, 1, 2, 3}
    ensures var steps := [Fork([Close(2), Close(3), Dup2(1, StdOut), Close(0), Close(1)])] +
                         ([Fork([Close(1), Dup2(0, StdIn), Close(2), Dup2(3, StdOut), Close(0), Close(3)])] +
                         ([Fork([Close(3), Dup2(2, StdIn), Close(2)])] + ParentCloses(0, 4)));
            |Spawn(steps, full).children| == 3 && Spawn(steps, full).children[2].open == {0, 1}
  {
    var ops0 := [Close(2), Close(3), Dup2(1, StdOut), Close(0), Close(1)];
    var ops1 := [Close(1), Dup2(0, StdIn), Close(2), Dup2(3, StdOut), Close(0), Close(3)];
    var ops2 := [Close(3), Dup2(2, StdIn), Close(2)];
    var tail := ParentCloses(0, 4);
    LastWithoutEarlyClose(full);
    SpawnParentCloses(full, 0, 4);
    SpawnFork(ops2, tail, full);
    SpawnFork(ops1, [Fork(ops2)] + tail, full);
    SpawnFork(ops0, [Fork(ops1)] + ([Fork(ops2)] + tail), full);
  }

  /** The three-command branch with the two early parent closes removed. */
  lemma WithoutEarlyCloseShape()
    ensures Branch(3)[..2] + Branch(3)[4..]
         == [Fork([Close(2), Close(3), Dup2(1, StdOut), Close(0), Close(1)])] +
            ([Fork([Close(1), Dup2(0, StdIn), Close(2), Dup2(3, StdOut), Close(0), Close(3)])] +
            ([Fork([Close(3), Dup2(2, StdIn), Close(2)])] + ParentCloses(0, 4)))
  {
    ThreeStageShape();
  }

  /** The third child's own closes, run on the full set, leave pipe 0. */
  lemma LastWithoutEarlyClose(full: set<nat>)
    requires full == {0, 1, 2, 3}
    ensures Run(Proc(full, Terminal, Terminal), [Close(3), Dup2(2, StdIn), Close(2)]).open == {0, 1}
  {
    var p := Proc(full, Terminal, Terminal);
    RunCons(p, Close(3), [Dup2(2, StdIn), Close(2)]);
    var p1 := Apply(p, Close(3));
    RunCons(p1, Dup2(2, StdIn), [Close(2)]);
    RunCons(Apply(p1, Dup2(2, StdIn)), Close(2), []);
    assert full - {3} - {2} == {0, 1};
  }
}
