/** The walk theorem: any steps over a log, forward and backward, are safe and end where forward replay does. */
module AnyWalk {
  import opened Common
  import opened Errors
  import opened FrameModel
  import opened Leftovers
  import opened MemoryModel
  import opened Moves
  import opened ProcessModel
  import opened TraceLog
  import opened Replay
  import opened Walk

  /** All references of the log are right, and forward replay meets what the source asserts. */
  ghost predicate Replays(functions: seq<Function>, log: Log, initial: Process) {
    Linked(functions, log) && initial.Valid() && Replayable(functions, log, initial, |log|)
  }

  /** No restore comes first in a function that never returns: the start of a function is recorded when it
      returns, and rewinding the restore would look for it. */
  ghost predicate Rewindable(log: Log) {
    forall i | 0 <= i < |log| :: RestartableAt(log, i)
  }

  /** No value of an instruction is a NaN in a data slot, unless the instruction is the target of a jump back:
      adding the instruction again finds its value in the store, and a NaN is not equal to itself. */
  ghost predicate Readdable(functions: seq<Function>, log: Log)
    requires Linked(functions, log)
  {
    forall i | 0 <= i < |log| :: ReaddableAt(functions, log, i)
  }

  ghost predicate WellFormed(functions: seq<Function>, log: Log, initial: Process) {
    Replays(functions, log, initial) && Rewindable(log) && Readdable(functions, log)
  }

  /** A thread before its first event. */
  function AtStart(initial: Process): State { State([], 0, 0, 0, initial) }

  lemma {:induction false} ReplayablePrefix(functions: seq<Function>, log: Log, initial: Process, n: nat, m: nat)
    requires Linked(functions, log) && initial.Valid() && n <= m <= |log| && Replayable(functions, log, initial, m)
    ensures Replayable(functions, log, initial, n)
    decreases m
  {
    if n < m {
      ReplayablePrefix(functions, log, initial, n, m - 1);
    }
  }

  ghost function Replayed(functions: seq<Function>, log: Log, initial: Process, n: nat): (r: State)
    requires Replays(functions, log, initial) && n <= |log|
    ensures r.process.Valid()
  {
    ReplayablePrefix(functions, log, initial, n, |log|);
    ReplayTo(functions, log, initial, n)
  }

  /** Nothing that the source asserts fails along the moves. */
  ghost predicate Safe(functions: seq<Function>, log: Log, st: State, n: nat, moves: seq<Move>)
    requires Linked(functions, log) && n <= |log| && Legal(moves, n, |log|) && st.process.Valid()
    decreases moves
  {
    moves == [] ||
    if moves[0].Forward? then
      CanAdd(functions, log, st, n) && Safe(functions, log, AddEvent(functions, log, st, n), n + 1, moves[1..])
    else
      CanRemove(functions, log, st, n - 1) &&
      Safe(functions, log, RemoveEvent(functions, log, st, n - 1), n - 1, moves[1..])
  }

  ghost function Go(functions: seq<Function>, log: Log, st: State, n: nat, moves: seq<Move>): (r: State)
    requires Linked(functions, log) && n <= |log| && Legal(moves, n, |log|) && st.process.Valid()
    requires Safe(functions, log, st, n, moves)
    ensures r.process.Valid()
    decreases moves
  {
    if moves == [] then st
    else if moves[0].Forward? then Go(functions, log, AddEvent(functions, log, st, n), n + 1, moves[1..])
    else Go(functions, log, RemoveEvent(functions, log, st, n - 1), n - 1, moves[1..])
  }

  /** Equal for every reader: positions, areas, and each value that `r` can answer. */
  ghost predicate EquivalentFrame(functions: seq<Function>, a: Frame, r: Frame) {
    && a.start == r.start && a.fn == r.fn < |functions|
    && a.allocas == r.allocas && a.byVals == r.byVals
    && a.blocks.active == r.blocks.active
    && (a.blocks.active.Some? ==> a.blocks.complete == r.blocks.complete)
    && forall i | 0 <= i < |functions[r.fn].blockOf| && Answer(functions[r.fn], r.blocks, i).Some? ::
         Answer(functions[r.fn], a.blocks, i) == Answer(functions[r.fn], r.blocks, i)
  }

  ghost predicate Equivalent(functions: seq<Function>, st: State, r: State) {
    && |st.callStack| == |r.callStack|
    && (forall j | 0 <= j < |r.callStack| :: EquivalentFrame(functions, st.callStack[j], r.callStack[j]))
    && st.threadTime == r.threadTime && st.view == r.view
    && SameProcess(st.process, r.process)
  }

  lemma {:induction false} GoWalked(functions: seq<Function>, log: Log, initial: Process, st: State, n: nat,
                                    moves: seq<Move>)
    requires WellFormed(functions, log, initial) && n <= |log| && Legal(moves, n, |log|)
    requires Replayable(functions, log, initial, n) && Walked(functions, log, initial, st, n)
    ensures Safe(functions, log, st, n, moves)
    ensures var m := End(moves, n, |log|);
            && Replayable(functions, log, initial, m)
            && Walked(functions, log, initial, Go(functions, log, st, n, moves), m)
    decreases moves
  {
    hide Linked, Replayable, ReplayTo, SameFrames, SameProcess, SameTime, CanAdd, AddEvent, CanRemove, RemoveEvent;
    if moves != [] {
      if moves[0].Forward? {
        ReplayablePrefix(functions, log, initial, n + 1, |log|);
        StepForward(functions, log, initial, st, n);
        GoWalked(functions, log, initial, AddEvent(functions, log, st, n), n + 1, moves[1..]);
      } else {
        ReplayablePrefix(functions, log, initial, n - 1, |log|);
        StepBackward(functions, log, initial, st, n - 1);
        GoWalked(functions, log, initial, RemoveEvent(functions, log, st, n - 1), n - 1, moves[1..]);
      }
    }
  }

  lemma FrameEquivalent(functions: seq<Function>, log: Log, a: Frame, start: nat, n: nat)
    requires Linked(functions, log) && start < n <= |log| && log[start].FunctionStart?
    requires SameFrame(functions, log, a, start, n)
    ensures EquivalentFrame(functions, a, FrameAt(functions, log, start, n))
  {
    hide Linked, Run, Eventual, JumpsTrack, Answer, LastValue, Stack, Steps, AllocasAt, ByValsAt, ErrorsAt;
    StepsExecutable(functions, log, start, n);
    var f, steps, k := functions[log[start].fn], Steps(log, start, |log|), |Steps(log, start, n)|;
    assert steps[..k] == Steps(log, start, n);
    forall i | 0 <= i < |f.blockOf| && Answer(f, RunTo(f, steps, k), i).Some?
      ensures Answer(f, a.blocks, i) == Answer(f, RunTo(f, steps, k), i)
    {
      AnswerIsLast(f, steps, k, i);
      WalkedAnswers(f, a.blocks, steps, k, i);
    }
  }

  lemma WalkedEquivalent(functions: seq<Function>, log: Log, initial: Process, st: State, n: nat)
    requires Linked(functions, log) && n <= |log| && initial.Valid() && Replayable(functions, log, initial, n)
    requires Walked(functions, log, initial, st, n)
    ensures Equivalent(functions, st, ReplayTo(functions, log, initial, n))
  {
    hide Linked, Replayable, ReplayTo, SameFrame, FrameAt, EquivalentFrame, SameProcess, SameTime, Stack;
    ReplayFrames(functions, log, initial, n);
    var r := ReplayTo(functions, log, initial, n);
    forall j | 0 <= j < |r.callStack| ensures EquivalentFrame(functions, st.callStack[j], r.callStack[j]) {
      FrameEquivalent(functions, log, st.callStack[j], Stack(log, n)[j], n);
    }
  }

  lemma StartsWalked(functions: seq<Function>, log: Log, initial: Process)
    requires WellFormed(functions, log, initial)
    ensures Replayable(functions, log, initial, 0)
    ensures Walked(functions, log, initial, AtStart(initial), 0)
  {
  }

  /** Any walk from the start of a well-formed log is safe and ends in a state equivalent to forward
      replay to the position that it ends at. */
  lemma WalkTheorem(functions: seq<Function>, log: Log, initial: Process, moves: seq<Move>)
    requires WellFormed(functions, log, initial) && Legal(moves, 0, |log|)
    ensures Safe(functions, log, AtStart(initial), 0, moves)
    ensures Equivalent(functions, Go(functions, log, AtStart(initial), 0, moves),
                       Replayed(functions, log, initial, End(moves, 0, |log|)))
  {
    hide Linked, Replayable, ReplayTo, Walked, Equivalent, Safe, Go;
    StartsWalked(functions, log, initial);
    GoWalked(functions, log, initial, AtStart(initial), 0, moves);
    WalkedEquivalent(functions, log, initial, Go(functions, log, AtStart(initial), 0, moves),
                     End(moves, 0, |log|));
  }

  // ---------------------------------------------------------------- walks that go forward first

  lemma IsReplayed(functions: seq<Function>, log: Log, initial: Process, n: nat)
    requires Replays(functions, log, initial) && n <= |log|
    ensures Replayable(functions, log, initial, n)
    ensures Replayed(functions, log, initial, n) == ReplayTo(functions, log, initial, n)
  {
    hide Linked, Replayable, ReplayTo;
    ReplayablePrefix(functions, log, initial, n, |log|);
  }

  lemma ReplayedNext(functions: seq<Function>, log: Log, initial: Process, n: nat)
    requires Replays(functions, log, initial) && n < |log|
    ensures CanAdd(functions, log, Replayed(functions, log, initial, n), n)
    ensures Replayed(functions, log, initial, n + 1) ==
            AddEvent(functions, log, Replayed(functions, log, initial, n), n)
  {
    hide Linked, CanAdd, AddEvent;
    ReplayablePrefix(functions, log, initial, n + 1, |log|);
  }

  lemma ReplayedStart(functions: seq<Function>, log: Log, initial: Process)
    requires Replays(functions, log, initial)
    ensures Replayed(functions, log, initial, 0) == AtStart(initial)
  {
    hide Linked, AddEvent, CanAdd;
  }

  /** Two walks, from where forward replay has added `n` and `m` events, that end in the same state if at all. */
  ghost predicate SameOutcome(functions: seq<Function>, log: Log, initial: Process, n: nat, moves: seq<Move>,
                              m: nat, tail: seq<Move>)
    requires Replays(functions, log, initial) && n <= |log| && m <= |log|
  {
    hide Safe, Go, Legal, End, Linked, Replayed;
    && Legal(moves, n, |log|) && Legal(tail, m, |log|) && End(moves, n, |log|) == End(tail, m, |log|)
    && var a, b := Replayed(functions, log, initial, n), Replayed(functions, log, initial, m);
       && (Safe(functions, log, a, n, moves) <==> Safe(functions, log, b, m, tail))
       && (Safe(functions, log, a, n, moves) ==> Go(functions, log, a, n, moves) == Go(functions, log, b, m, tail))
  }

  lemma {:induction false} Onwards(functions: seq<Function>, log: Log, initial: Process, n: nat, k: nat,
                                   tail: seq<Move>)
    requires Replays(functions, log, initial) && n + k <= |log| && Legal(tail, n + k, |log|)
    ensures SameOutcome(functions, log, initial, n, Times(Forward, k, tail), n + k, tail)
    decreases k
  {
    hide Replays, CanAdd, AddEvent, CanRemove, RemoveEvent, Replayed, Times;
    FirstOf(Forward, k, tail);
    if k > 0 {
      ReplayedNext(functions, log, initial, n);
      Onwards(functions, log, initial, n + 1, k - 1, tail);
    }
  }

  lemma OneBackward(functions: seq<Function>, log: Log, st: State, n: nat)
    requires Linked(functions, log) && n < |log| && st.process.Valid()
    ensures Legal([Backward], n + 1, |log|) && End([Backward], n + 1, |log|) == n
    ensures Safe(functions, log, st, n + 1, [Backward]) <==> CanRemove(functions, log, st, n)
    ensures CanRemove(functions, log, st, n) ==>
              Go(functions, log, st, n + 1, [Backward]) == RemoveEvent(functions, log, st, n)
  {
    hide Linked, CanAdd, AddEvent, CanRemove, RemoveEvent;
    assert [Backward][1..] == [];
    assert Legal([], n, |log|);
  }

  lemma BackAndForth(functions: seq<Function>, log: Log, st: State, n: nat)
    requires Linked(functions, log) && n < |log| && st.process.Valid()
    ensures Legal([Backward, Forward], n + 1, |log|)
    ensures Safe(functions, log, st, n + 1, [Backward, Forward]) ==>
              && CanRemove(functions, log, st, n)
              && CanAdd(functions, log, RemoveEvent(functions, log, st, n), n)
  {
    hide Linked, CanAdd, AddEvent, CanRemove, RemoveEvent;
    assert [Backward, Forward][1..] == [Forward] && [Forward][1..] == [];
    assert Legal([Forward], n, |log|);
  }

  /** From the start over event `i`, and back over it. */
  lemma Overshoot(functions: seq<Function>, log: Log, initial: Process, i: nat)
    requires Replays(functions, log, initial) && i < |log|
    ensures var moves, r := Times(Forward, i + 1, [Backward]), Replayed(functions, log, initial, i + 1);
            && Legal(moves, 0, |log|) && End(moves, 0, |log|) == i
            && (Safe(functions, log, AtStart(initial), 0, moves) ==>
                  CanRemove(functions, log, r, i) &&
                  Go(functions, log, AtStart(initial), 0, moves) == RemoveEvent(functions, log, r, i))
  {
    hide Replayed, CanRemove, RemoveEvent, Times, Safe, Go, Legal, End, Linked;
    OneBackward(functions, log, Replayed(functions, log, initial, i + 1), i);
    Onwards(functions, log, initial, 0, i + 1, [Backward]);
    ReplayedStart(functions, log, initial);
  }

  // ---------------------------------------------------------------- which walks are safe

  lemma TopStart(functions: seq<Function>, log: Log, st: State, i: nat)
    requires Linked(functions, log) && i < |log| && st.process.Valid() && CanRemove(functions, log, st, i)
    requires log[i].StackRestore?
    ensures st.callStack != [] && Restartable(log, st.callStack[|st.callStack| - 1].start, i)
  {
    hide Linked, Stack, Steps, AllocasAt, BackwardChange, CanRevert, Restartable;
  }

  /** Removing a restore looks for the start of its function. */
  lemma RestoreNeedsStart(functions: seq<Function>, log: Log, initial: Process, i: nat)
    requires Replays(functions, log, initial) && i < |log|
    requires CanRemove(functions, log, Replayed(functions, log, initial, i + 1), i)
    ensures RestartableAt(log, i)
  {
    hide Linked, Replayable, ReplayTo, FramesAt, CanRemove, Restartable, Stack, Replayed;
    if log[i].StackRestore? {
      IsReplayed(functions, log, initial, i + 1);
      ReplayFrames(functions, log, initial, i + 1);
      SomeFunction(functions, log, i);
      TopFrameAt(functions, log, i + 1);
      TopStart(functions, log, Replayed(functions, log, initial, i + 1), i);
    }
  }

  lemma SomeFunction(functions: seq<Function>, log: Log, i: nat)
    requires Linked(functions, log) && i < |log| && log[i].StackRestore?
    ensures Stack(log, i) != [] && Stack(log, i + 1) == Stack(log, i)
  {
    assert LinkedAt(functions, log, i);
  }

  /** Adding an instruction again sets its value again. */
  lemma ReaddNeedsEqual(functions: seq<Function>, log: Log, initial: Process, i: nat)
    requires Replays(functions, log, initial) && i < |log|
    requires CanRemove(functions, log, Replayed(functions, log, initial, i + 1), i)
    requires CanAdd(functions, log, RemoveEvent(functions, log, Replayed(functions, log, initial, i + 1), i), i)
    ensures ReaddableAt(functions, log, i)
  {
    hide Linked, Replayable, ReplayTo, FramesAt, CanRemove, CanAdd, RemoveEvent, Stack, FrameAt, ReaddableAt,
      Replayed;
    if log[i].IsInstruction() {
      IsReplayed(functions, log, initial, i + 1);
      ReplayFrames(functions, log, initial, i + 1);
      InstructionOnTop(functions, log, i);
      LastFrameAt(functions, log, i + 1);
      var st := Replayed(functions, log, initial, i + 1);
      TopAgain(functions, log, st, i);
      var s := Stack(log, i);
      ReaddedFrame(functions, log, s[|s| - 1], st.threadTime, i);
    } else {
      OthersReaddable(functions, log, i);
    }
  }

  lemma OthersReaddable(functions: seq<Function>, log: Log, i: nat)
    requires Linked(functions, log) && i < |log| && !log[i].IsInstruction()
    ensures ReaddableAt(functions, log, i)
  {
  }

  lemma InstructionOnTop(functions: seq<Function>, log: Log, i: nat)
    requires Linked(functions, log) && i < |log| && log[i].IsInstruction()
    ensures Stack(log, i) != [] && Stack(log, i + 1) == Stack(log, i)
  {
    assert LinkedAt(functions, log, i);
  }

  /** What removing an instruction and adding it again asks of the innermost frame. */
  lemma TopAgain(functions: seq<Function>, log: Log, st: State, i: nat)
    requires Linked(functions, log) && i < |log| && st.process.Valid() && log[i].IsInstruction()
    requires CanRemove(functions, log, st, i) && CanAdd(functions, log, RemoveEvent(functions, log, st, i), i)
    ensures st.callStack != []
    ensures var top := st.callStack[|st.callStack| - 1];
            && CanRemoveFromFrame(functions, log, top, i)
            && CanAddToFrame(functions, log, FrameBefore(functions, log, top, st.threadTime, i), i)
  {
    hide Linked, Stack, Steps, AllocasAt, BackwardChange, ForwardChange, CanRevert, CanApply, Revert, Apply,
      CanRemoveFromFrame, CanAddToFrame, FrameBefore;
  }

  lemma ReaddedFrame(functions: seq<Function>, log: Log, start: nat, t: int, i: nat)
    requires Linked(functions, log) && start < i < |log| && log[start].FunctionStart?
    requires Local(log, start, i) && log[i].IsInstruction()
    requires var f := FrameAt(functions, log, start, i + 1);
             CanRemoveFromFrame(functions, log, f, i) &&
             CanAddToFrame(functions, log, FrameBefore(functions, log, f, t, i), i)
    ensures ReaddableAt(functions, log, i)
  {
    hide Linked, Stack, Retreat, CanRetreat, Run, Settable, Executable, AllocasAt, ErrorsSince, Repeatable;
    StepsExecutable(functions, log, start, i);
    NextStep(log, start, i);
    var f, steps, k := functions[log[start].fn], Steps(log, start, |log|), |Steps(log, start, i)|;
    assert k > 0 ==> Steps(log, start, i)[k - 1] == steps[k - 1];
    assert steps[..k + 1] == Steps(log, start, i + 1);
    if !Repeatable(f, steps, k) {
      NotRepeatable(f, steps, k);
    }
  }

  /** Every walk over a log that can be replayed is safe if and only if every restore can be taken back and every
      instruction can be added again. */
  lemma SafeIff(functions: seq<Function>, log: Log, initial: Process)
    requires Replays(functions, log, initial)
    ensures (forall moves | Legal(moves, 0, |log|) :: Safe(functions, log, AtStart(initial), 0, moves))
            <==> Rewindable(log) && Readdable(functions, log)
  {
    hide Linked, Safe, Go, Legal, End, ReplayTo, RestartableAt, ReaddableAt, CanRemove, CanAdd, RemoveEvent;
    if Rewindable(log) && Readdable(functions, log) {
      forall moves | Legal(moves, 0, |log|) ensures Safe(functions, log, AtStart(initial), 0, moves) {
        WalkTheorem(functions, log, initial, moves);
      }
    } else if !Rewindable(log) {
      var i :| 0 <= i < |log| && !RestartableAt(log, i);
      Overshoot(functions, log, initial, i);
      if Safe(functions, log, AtStart(initial), 0, Times(Forward, i + 1, [Backward])) {
        RestoreNeedsStart(functions, log, initial, i);
      }
    } else {
      var i :| 0 <= i < |log| && !ReaddableAt(functions, log, i);
      BackAndForth(functions, log, Replayed(functions, log, initial, i + 1), i);
      Onwards(functions, log, initial, 0, i + 1, [Backward, Forward]);
      ReplayedStart(functions, log, initial);
      if Safe(functions, log, AtStart(initial), 0, Times(Forward, i + 1, [Backward, Forward])) {
        ReaddNeedsEqual(functions, log, initial, i);
      }
    }
  }

  // ---------------------------------------------------------------- the process time

  /** The time of the last change of the process before event `n`. */
  function ChangeTime(log: Log, n: nat): nat
    requires n <= |log|
  {
    if n == 0 then 0
    else if log[n - 1].IsTimedChange() then log[n - 1].time
    else ChangeTime(log, n - 1)
  }

  /** No change shares its time with the change before it. */
  ghost predicate DistinctTimes(log: Log) {
    forall i | 0 <= i < |log| && log[i].IsTimedChange() :: log[i].time != ChangeTime(log, i)
  }

  lemma {:induction false} ReplayTime(functions: seq<Function>, log: Log, initial: Process, n: nat)
    requires Linked(functions, log) && n <= |log| && initial.Valid() && Replayable(functions, log, initial, n)
    ensures ReplayTo(functions, log, initial, n).time == ChangeTime(log, n)
  {
    hide Linked, CanAdd, ForwardChange, FramesAfter, Apply;
    if n > 0 {
      ReplayTime(functions, log, initial, n - 1);
    }
  }

  lemma {:induction false} NextIsDistinct(log: Log, n: nat)
    requires n <= |log| && DistinctTimes(log)
    ensures NextChange(log, n) != Some(ChangeTime(log, n))
    decreases |log| - n
  {
    if n < |log| && !log[n].IsTimedChange() {
      NextIsDistinct(log, n + 1);
    }
  }

  /** After removing a change, the process time is the one before it exactly if the two differ. */
  lemma RemovedTime(functions: seq<Function>, log: Log, initial: Process, i: nat)
    requires WellFormed(functions, log, initial) && i < |log| && log[i].IsTimedChange()
    requires CanRemove(functions, log, Replayed(functions, log, initial, i + 1), i)
    ensures RemoveEvent(functions, log, Replayed(functions, log, initial, i + 1), i).time ==
            Replayed(functions, log, initial, i).time
            <==> log[i].time != ChangeTime(log, i)
  {
    hide Linked, ForwardChange, FramesAfter, Apply, BackwardChange, FramesBefore, Revert;
    ReplayablePrefix(functions, log, initial, i + 1, |log|);
    ReplayTime(functions, log, initial, i);
    assert CanAdd(functions, log, Replayed(functions, log, initial, i), i);
  }

  /** The process time is right after every walk if and only if no two successive changes share a
      time. They do share one whenever a single instruction makes several changes. */
  lemma TimeIsRightIff(functions: seq<Function>, log: Log, initial: Process)
    requires WellFormed(functions, log, initial)
    ensures (forall moves | Legal(moves, 0, |log|) ::
               Safe(functions, log, AtStart(initial), 0, moves) &&
               Go(functions, log, AtStart(initial), 0, moves).time ==
               Replayed(functions, log, initial, End(moves, 0, |log|)).time)
            <==> DistinctTimes(log)
  {
    hide Linked, Safe, Go, Legal, End, ReplayTo;
    if DistinctTimes(log) {
      forall moves | Legal(moves, 0, |log|)
        ensures Safe(functions, log, AtStart(initial), 0, moves)
        ensures Go(functions, log, AtStart(initial), 0, moves).time ==
                Replayed(functions, log, initial, End(moves, 0, |log|)).time
      {
        TimeIsRight(functions, log, initial, moves);
      }
    } else {
      var i :| 0 <= i < |log| && log[i].IsTimedChange() && log[i].time == ChangeTime(log, i);
      TimeLags(functions, log, initial, i);
    }
  }

  lemma TimeIsRight(functions: seq<Function>, log: Log, initial: Process, moves: seq<Move>)
    requires WellFormed(functions, log, initial) && Legal(moves, 0, |log|) && DistinctTimes(log)
    ensures Safe(functions, log, AtStart(initial), 0, moves)
    ensures Go(functions, log, AtStart(initial), 0, moves).time ==
            Replayed(functions, log, initial, End(moves, 0, |log|)).time
  {
    hide Linked, Replayable, ReplayTo, Safe, Go, SameFrames, SameProcess, DistinctTimes;
    StartsWalked(functions, log, initial);
    GoWalked(functions, log, initial, AtStart(initial), 0, moves);
    ReplayTime(functions, log, initial, End(moves, 0, |log|));
    NextIsDistinct(log, End(moves, 0, |log|));
  }

  lemma TimeLags(functions: seq<Function>, log: Log, initial: Process, i: nat)
    requires WellFormed(functions, log, initial) && i < |log|
    requires log[i].IsTimedChange() && log[i].time == ChangeTime(log, i)
    ensures var moves := Times(Forward, i + 1, [Backward]);
            && Legal(moves, 0, |log|)
            && Safe(functions, log, AtStart(initial), 0, moves)
            && Go(functions, log, AtStart(initial), 0, moves).time !=
               Replayed(functions, log, initial, End(moves, 0, |log|)).time
  {
    hide Linked, Safe, Go, RemoveEvent, CanRemove, Replayed, Legal, End, Replays;
    Overshoot(functions, log, initial, i);
    WalkTheorem(functions, log, initial, Times(Forward, i + 1, [Backward]));
    RemovedTime(functions, log, initial, i);
  }

  // ---------------------------------------------------------------- the runtime errors

  ghost predicate SameErrors(st: State, r: State) {
    && |st.callStack| == |r.callStack|
    && forall j | 0 <= j < |r.callStack| :: st.callStack[j].errors == r.callStack[j].errors
  }

  lemma FrameErrors(functions: seq<Function>, log: Log, a: Frame, start: nat, n: nat)
    requires Linked(functions, log) && start < n <= |log| && log[start].FunctionStart?
    requires SameFrame(functions, log, a, start, n) && ErrorsReturn(log)
    ensures a.errors == FrameAt(functions, log, start, n).errors
  {
    hide ErrorsReturn, Linked, Tracks, Exact, LeavesNothing;
  }

  lemma WalkedErrors(functions: seq<Function>, log: Log, initial: Process, st: State, n: nat)
    requires Linked(functions, log) && n <= |log| && initial.Valid() && Replayable(functions, log, initial, n)
    requires Walked(functions, log, initial, st, n) && ErrorsReturn(log)
    ensures SameErrors(st, ReplayTo(functions, log, initial, n))
  {
    hide Linked, Replayable, ReplayTo, SameFrame, FrameAt, SameProcess, SameTime, Stack, ErrorsReturn;
    ReplayFrames(functions, log, initial, n);
    var r := ReplayTo(functions, log, initial, n);
    forall j | 0 <= j < |r.callStack| ensures st.callStack[j].errors == r.callStack[j].errors {
      FrameErrors(functions, log, st.callStack[j], Stack(log, n)[j], n);
    }
  }

  /** Removing an instruction right after replay adds, once more, the errors recorded since the previous one. */
  lemma RemovedErrors(functions: seq<Function>, log: Log, initial: Process, i: nat)
    requires Replays(functions, log, initial) && i < |log| && !ErrorsStayAt(log, i)
    requires CanRemove(functions, log, Replayed(functions, log, initial, i + 1), i)
    ensures !SameErrors(RemoveEvent(functions, log, Replayed(functions, log, initial, i + 1), i),
                        Replayed(functions, log, initial, i))
  {
    hide Linked, Replayable, ReplayTo, FramesAt, CanRemove, RemoveEvent, Stack, FrameAt, Previous, ErrorsSince,
      Replayed;
    ReplayablePrefix(functions, log, initial, i + 1, |log|);
    ReplayablePrefix(functions, log, initial, i, |log|);
    ReplayFrames(functions, log, initial, i + 1);
    ReplayFrames(functions, log, initial, i);
    InstructionOnTop(functions, log, i);
    LastFrameAt(functions, log, i + 1);
    LastFrameAt(functions, log, i);
    IsReplayed(functions, log, initial, i);
    IsReplayed(functions, log, initial, i + 1);
    var s, st := Stack(log, i), Replayed(functions, log, initial, i + 1);
    TopErrors(functions, log, st, i);
    SameDepth(functions, log, i);
    InstructionErrors(functions, log, s[|s| - 1], i);
    var f := FrameAt(functions, log, s[|s| - 1], i);
    assert |f.errors + ErrorsAgain(log, f.start, i, st.threadTime)| != |f.errors|;
  }

  lemma SameDepth(functions: seq<Function>, log: Log, i: nat)
    requires Linked(functions, log) && i < |log| && log[i].IsInstruction()
    ensures |FramesAt(functions, log, i)| == |FramesAt(functions, log, i + 1)|
  {
    hide FrameAt;
  }

  lemma InstructionErrors(functions: seq<Function>, log: Log, start: nat, i: nat)
    requires Linked(functions, log) && start < i < |log| && log[start].FunctionStart? && log[i].IsInstruction()
    ensures FrameAt(functions, log, start, i + 1).errors == FrameAt(functions, log, start, i).errors
    ensures FrameAt(functions, log, start, i + 1).start == start == FrameAt(functions, log, start, i).start
  {
    hide Linked, Run, Steps, AllocasAt, ByValsAt;
  }

  lemma TopErrors(functions: seq<Function>, log: Log, st: State, i: nat)
    requires Linked(functions, log) && i < |log| && st.process.Valid() && log[i].IsInstruction()
    requires CanRemove(functions, log, st, i)
    ensures st.callStack != [] && |RemoveEvent(functions, log, st, i).callStack| == |st.callStack|
    ensures var f := st.callStack[|st.callStack| - 1];
            RemoveEvent(functions, log, st, i).callStack[|st.callStack| - 1].errors ==
            f.errors + ErrorsAgain(log, f.start, i, st.threadTime)
  {
    hide Linked, Stack, Steps, AllocasAt, BackwardChange, CanRevert, Revert, CanRetreat, Retreat, Previous, ErrorsAgain;
  }

  // ---------------------------------------------------------------- the times of the errors

  lemma TimeStep(functions: seq<Function>, log: Log, initial: Process, i: nat)
    requires Replays(functions, log, initial) && i < |log|
    ensures ThreadTimeAt(log, i) <= ThreadTimeAt(log, i + 1)
    ensures log[i].FunctionEnd? ==> ThreadTimeAt(log, i) + 1 == ThreadTimeAt(log, i + 1)
  {
    hide Replayable, ReplayTo, FramesAt, CanAddFrames, CanApply, ForwardChange, Stack, Steps, Replayed;
    IsReplayed(functions, log, initial, i);
    ReplayFrames(functions, log, initial, i);
    ReplayedNext(functions, log, initial, i);
    assert LinkedAt(functions, log, i);
  }

  lemma {:induction false} TimesGrow(functions: seq<Function>, log: Log, initial: Process, n: nat, m: nat)
    requires Replays(functions, log, initial) && n <= m <= |log|
    ensures ThreadTimeAt(log, n) <= ThreadTimeAt(log, m)
    decreases m
  {
    hide Replays, ThreadTimeAt;
    if n < m {
      TimesGrow(functions, log, initial, n, m - 1);
      TimeStep(functions, log, initial, m - 1);
    }
  }

  /** The frame that taking back the end of an invocation rebuilds. */
  lemma RemovedEnd(functions: seq<Function>, log: Log, st: State, i: nat)
    requires Linked(functions, log) && i < |log| && log[i].FunctionEnd? && st.process.Valid()
    requires CanRemove(functions, log, st, i)
    ensures log[i].functionStart < i && log[log[i].functionStart].FunctionStart?
    ensures RemoveEvent(functions, log, st, i).callStack ==
            st.callStack + [RebuiltAt(functions, log, log[i].functionStart, i, st.threadTime)]
  {
    hide Linked, FramesBefore, RebuiltAt, BackwardChange, CanRevert, Revert, Stack, Steps;
    FramesBeforeEnd(functions, log, st.callStack, st.threadTime, i);
  }

  /** Taking back an end right after replay gives an error that comes after no call another time. */
  lemma RemovedTimes(functions: seq<Function>, log: Log, initial: Process, i: nat)
    requires Replays(functions, log, initial) && i < |log| && !TimesReturnAt(log, i)
    requires CanRemove(functions, log, Replayed(functions, log, initial, i + 1), i)
    ensures !SameErrors(RemoveEvent(functions, log, Replayed(functions, log, initial, i + 1), i),
                        Replayed(functions, log, initial, i))
  {
    hide Linked, Replayable, ReplayTo, FramesAt, CanRemove, RemoveEvent, Stack, Replayed, AfterCall, ErrorOf,
      RebuiltErrors, ErrorsAt, ThreadTimeAt, Run, Steps, AllocasAt, ByValsAt;
    var s := log[i].functionStart;
    var st, r := Replayed(functions, log, initial, i + 1), Replayed(functions, log, initial, i);
    var p :| s < p < i && ErrorOf(log, s, p) && !AfterCall(log, s, p);
    IsReplayed(functions, log, initial, i);
    IsReplayed(functions, log, initial, i + 1);
    ReplayFrames(functions, log, initial, i);
    ReplayFrames(functions, log, initial, i + 1);
    EndsTop(functions, log, i);
    LastFrameAt(functions, log, i);
    RemovedEnd(functions, log, st, i);
    TimesGrow(functions, log, initial, p, i);
    TimeStep(functions, log, initial, i);
    RebuiltWrong(log, s, p, i, st.threadTime);
    assert RemoveEvent(functions, log, st, i).callStack[|st.callStack|].errors != r.callStack[|r.callStack| - 1].errors;
  }

  /** The errors of the frames, with the thread times that they were recorded at, are right after every walk if and
      only if removing an instruction never adds one again, and running a returned invocation again gives each its
      time. */
  lemma ErrorsReturnIff(functions: seq<Function>, log: Log, initial: Process)
    requires WellFormed(functions, log, initial)
    ensures (forall moves | Legal(moves, 0, |log|) ::
               Safe(functions, log, AtStart(initial), 0, moves) &&
               SameErrors(Go(functions, log, AtStart(initial), 0, moves),
                          Replayed(functions, log, initial, End(moves, 0, |log|))))
            <==> ErrorsReturn(log)
  {
    hide Linked, Safe, Go, Legal, End, ReplayTo, ErrorsStayAt, TimesReturnAt, CanRemove, RemoveEvent, Replayed,
      SameErrors;
    if ErrorsReturn(log) {
      forall moves | Legal(moves, 0, |log|)
        ensures Safe(functions, log, AtStart(initial), 0, moves)
        ensures SameErrors(Go(functions, log, AtStart(initial), 0, moves),
                           Replayed(functions, log, initial, End(moves, 0, |log|)))
      {
        ErrorsAreRight(functions, log, initial, moves);
      }
    } else {
      var i :| 0 <= i < |log| && !(ErrorsStayAt(log, i) && TimesReturnAt(log, i));
      ErrorsDiffer(functions, log, initial, i);
    }
  }

  /** Going over such an event and back leaves other errors. */
  lemma ErrorsDiffer(functions: seq<Function>, log: Log, initial: Process, i: nat)
    requires WellFormed(functions, log, initial) && i < |log| && !(ErrorsStayAt(log, i) && TimesReturnAt(log, i))
    ensures var moves := Times(Forward, i + 1, [Backward]);
            && Legal(moves, 0, |log|)
            && Safe(functions, log, AtStart(initial), 0, moves)
            && !SameErrors(Go(functions, log, AtStart(initial), 0, moves),
                           Replayed(functions, log, initial, End(moves, 0, |log|)))
  {
    hide Linked, Safe, Go, Legal, End, ReplayTo, ErrorsStayAt, TimesReturnAt, CanRemove, RemoveEvent, Replayed,
      SameErrors, Replays, Times;
    Overshoot(functions, log, initial, i);
    WalkTheorem(functions, log, initial, Times(Forward, i + 1, [Backward]));
    if !ErrorsStayAt(log, i) {
      RemovedErrors(functions, log, initial, i);
    } else {
      RemovedTimes(functions, log, initial, i);
    }
  }

  lemma ErrorsAreRight(functions: seq<Function>, log: Log, initial: Process, moves: seq<Move>)
    requires WellFormed(functions, log, initial) && Legal(moves, 0, |log|) && ErrorsReturn(log)
    ensures Safe(functions, log, AtStart(initial), 0, moves)
    ensures SameErrors(Go(functions, log, AtStart(initial), 0, moves),
                       Replayed(functions, log, initial, End(moves, 0, |log|)))
  {
    hide Linked, Replayable, ReplayTo, Safe, Go, Legal, End, Walked, SameErrors, ErrorsReturn;
    StartsWalked(functions, log, initial);
    GoWalked(functions, log, initial, AtStart(initial), 0, moves);
    WalkedErrors(functions, log, initial, Go(functions, log, AtStart(initial), 0, moves), End(moves, 0, |log|));
    IsReplayed(functions, log, initial, End(moves, 0, |log|));
  }
}
