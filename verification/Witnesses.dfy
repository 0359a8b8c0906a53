/** Logs over which walking goes wrong: one for each condition of the theorems about walks. */
module Witnesses {
  import opened Common
  import opened Errors
  import opened FrameModel
  import opened Leftovers
  import opened MemoryModel
  import opened Moves
  import opened ProcessModel
  import opened TraceLog
  import opened Replay
  import opened Walk
  import opened AnyWalk

  const NEW_PROCESS := Process(map[], [], EmptyMemory, map[], map[], [], map[])

  const START := FunctionStart(0, None, None, 1, 0)

  /** Forward replay, one event at a time. */
  lemma OneMore(functions: seq<Function>, log: Log, n: nat, st: State)
    requires Linked(functions, log) && n < |log| && Replayable(functions, log, NEW_PROCESS, n)
    requires st.process.Valid() && CanAdd(functions, log, st, n) && ReplayTo(functions, log, NEW_PROCESS, n) == st
    ensures Replayable(functions, log, NEW_PROCESS, n + 1)
    ensures ReplayTo(functions, log, NEW_PROCESS, n + 1) == AddEvent(functions, log, st, n)
  {
    hide Linked, CanAdd, AddEvent;
  }

  lemma NoEvent(functions: seq<Function>, log: Log)
    requires Linked(functions, log)
    ensures Replayable(functions, log, NEW_PROCESS, 0)
    ensures ReplayTo(functions, log, NEW_PROCESS, 0) == AtStart(NEW_PROCESS)
  {
  }

  lemma EmptyStack(log: Log)
    ensures Stack(log, 0) == []
  {
  }

  // ---------------------------------------------------------------- two changes of one time

  const TWO_CLEARS: Log := [StateClear(8, 4, 1), StateClear(16, 4, 1)]

  lemma ClearsDoNothing(c: Event)
    requires c.StateClear? && c.size > 0
    ensures CanApply(NEW_PROCESS, ChangeOf([c], 0))
    ensures Apply(NEW_PROCESS, ChangeOf([c], 0)) == NEW_PROCESS
  {
  }

  /** Two areas cleared by one instruction: going over the second clear and back leaves the wrong time. */
  lemma SharedTime()
    ensures WellFormed([], TWO_CLEARS, NEW_PROCESS) && !DistinctTimes(TWO_CLEARS)
    ensures var moves := [Forward, Forward, Backward];
            && Legal(moves, 0, 2)
            && Safe([], TWO_CLEARS, AtStart(NEW_PROCESS), 0, moves)
            && Go([], TWO_CLEARS, AtStart(NEW_PROCESS), 0, moves).time !=
               Replayed([], TWO_CLEARS, NEW_PROCESS, End(moves, 0, 2)).time
  {
    hide Safe, Go, Legal, End, Replayed, ReplayTo, Replayable, Apply, CanApply;
    assert TWO_CLEARS[1].time == ChangeTime(TWO_CLEARS, 1);
    ClearsWellFormed();
    TimeLags([], TWO_CLEARS, NEW_PROCESS, 1);
    assert Times(Forward, 2, [Backward]) == [Forward, Forward, Backward];
  }

  lemma ClearsWellFormed()
    ensures WellFormed([], TWO_CLEARS, NEW_PROCESS)
  {
    hide CanApply, Apply, Stack, Steps;
    NoEvent([], TWO_CLEARS);
    ClearsDoNothing(TWO_CLEARS[0]);
    ClearsDoNothing(TWO_CLEARS[1]);
    OneMore([], TWO_CLEARS, 0, AtStart(NEW_PROCESS));
    OneMore([], TWO_CLEARS, 1, State([], 0, 1, 1, NEW_PROCESS));
  }

  // ---------------------------------------------------------------- a restore in a function that does not return

  const EMPTY_FUNCTION := Function([], [])

  const LONE_RESTORE: Log := [START, StackRestore]

  lemma RestoreLinked()
    ensures Linked([EMPTY_FUNCTION], LONE_RESTORE)
    ensures Stack(LONE_RESTORE, 1) == [0] && Restored(LONE_RESTORE, 2) == []
  {
    assert Stack(LONE_RESTORE, 1) == [0];
    assert Steps(LONE_RESTORE, 0, 1) == [];
    assert LinkedAt([EMPTY_FUNCTION], LONE_RESTORE, 0);
    assert LinkedAt([EMPTY_FUNCTION], LONE_RESTORE, 1);
  }

  lemma RestoreReplays()
    ensures Replays([EMPTY_FUNCTION], LONE_RESTORE, NEW_PROCESS)
  {
    hide Linked;
    RestoreLinked();
    NoEvent([EMPTY_FUNCTION], LONE_RESTORE);
    OneMore([EMPTY_FUNCTION], LONE_RESTORE, 0, AtStart(NEW_PROCESS));
    OneMore([EMPTY_FUNCTION], LONE_RESTORE, 1, State([NewFrame(0, 0)], 1, 0, 0, NEW_PROCESS));
  }

  /** The restore can be added but not taken back. */
  lemma RestoreStays()
    ensures Replays([EMPTY_FUNCTION], LONE_RESTORE, NEW_PROCESS) && !Rewindable(LONE_RESTORE)
    ensures var moves := [Forward, Forward, Backward];
            Legal(moves, 0, 2) && !Safe([EMPTY_FUNCTION], LONE_RESTORE, AtStart(NEW_PROCESS), 0, moves)
  {
    hide Safe, Go, Legal, End, Replayed, Replays, Linked, CanRemove, RemoveEvent;
    RestoreReplays();
    RestoreLinked();
    assert !HasRestore(LONE_RESTORE, 0, 1);
    assert !RestartableAt(LONE_RESTORE, 1);
    Overshoot([EMPTY_FUNCTION], LONE_RESTORE, NEW_PROCESS, 1);
    assert Times(Forward, 2, [Backward]) == [Forward, Forward, Backward];
    if Safe([EMPTY_FUNCTION], LONE_RESTORE, AtStart(NEW_PROCESS), 0, [Forward, Forward, Backward]) {
      RestoreNeedsStart([EMPTY_FUNCTION], LONE_RESTORE, NEW_PROCESS, 1);
    }
  }

  // ---------------------------------------------------------------- a NaN

  const ONE_DOUBLE := Function([0], [DataSlot])

  /** The result of dividing zero by zero. */
  const NAN := Double(0x7FF8_0000_0000_0000)

  const ONE_NAN: Log := [START, InstructionWithValue(0, NAN)]

  lemma NaNLinked()
    ensures Linked([ONE_DOUBLE], ONE_NAN)
    ensures Stack(ONE_NAN, 1) == [0] && Steps(ONE_NAN, 0, 1) == [] && Steps(ONE_NAN, 0, 2) == [Step(0, Some(NAN), true)]
  {
    assert Stack(ONE_NAN, 1) == [0];
    assert Steps(ONE_NAN, 0, 1) == [];
    assert LinkedAt([ONE_DOUBLE], ONE_NAN, 0);
    assert LinkedAt([ONE_DOUBLE], ONE_NAN, 1);
  }

  lemma NaNReplays()
    ensures Replays([ONE_DOUBLE], ONE_NAN, NEW_PROCESS)
  {
    hide Linked, Value.Equals, Stack, Steps;
    NaNLinked();
    NoEvent([ONE_DOUBLE], ONE_NAN);
    OneMore([ONE_DOUBLE], ONE_NAN, 0, AtStart(NEW_PROCESS));
    OneMore([ONE_DOUBLE], ONE_NAN, 1, State([NewFrame(0, 0)], 1, 0, 0, NEW_PROCESS));
  }

  /** Adding the instruction a second time finds the value in its store, and the value is not equal to itself. */
  lemma NaNIsNotReadded()
    ensures Replays([ONE_DOUBLE], ONE_NAN, NEW_PROCESS) && Rewindable(ONE_NAN) && !Readdable([ONE_DOUBLE], ONE_NAN)
    ensures var moves := [Forward, Forward, Backward, Forward];
            Legal(moves, 0, 2) && !Safe([ONE_DOUBLE], ONE_NAN, AtStart(NEW_PROCESS), 0, moves)
  {
    hide Safe, Go, Legal, End, Replayed, Replays, Linked, CanRemove, RemoveEvent, CanAdd;
    NaNReplays();
    NaNLinked();
    assert !ReaddableAt([ONE_DOUBLE], ONE_NAN, 1);
    BackAndForth([ONE_DOUBLE], ONE_NAN, Replayed([ONE_DOUBLE], ONE_NAN, NEW_PROCESS, 2), 1);
    Onwards([ONE_DOUBLE], ONE_NAN, NEW_PROCESS, 0, 2, [Backward, Forward]);
    ReplayedStart([ONE_DOUBLE], ONE_NAN, NEW_PROCESS);
    assert Times(Forward, 2, [Backward, Forward]) == [Forward, Forward, Backward, Forward];
    if Safe([ONE_DOUBLE], ONE_NAN, AtStart(NEW_PROCESS), 0, [Forward, Forward, Backward, Forward]) {
      ReaddNeedsEqual([ONE_DOUBLE], ONE_NAN, NEW_PROCESS, 1);
    }
  }

  // ---------------------------------------------------------------- two errors between two instructions

  const TWO_INSTRUCTIONS := Function([0, 0], [NoSlot, NoSlot])

  const TWO_ERRORS: Log := [START, Instruction(0), RuntimeError(true), RuntimeError(true), Instruction(1)]

  const ONE_STEP := Blocks(Some(0), true, map[0 := map[]], [])

  lemma ErrorsSteps()
    ensures Steps(TWO_ERRORS, 0, 1) == []
    ensures forall n | 2 <= n <= 4 :: Steps(TWO_ERRORS, 0, n) == [Step(0, None, true)]
    ensures Steps(TWO_ERRORS, 0, 5) == [Step(0, None, true), Step(1, None, true)]
  {
    hide Stack;
    ErrorsStacks();
    assert Stack(TWO_ERRORS, 0) == [] by { EmptyStack(TWO_ERRORS); }
    assert Steps(TWO_ERRORS, 0, 1) == [];
    assert Steps(TWO_ERRORS, 0, 2) == [Step(0, None, true)];
    assert Steps(TWO_ERRORS, 0, 3) == [Step(0, None, true)];
    assert Steps(TWO_ERRORS, 0, 4) == [Step(0, None, true)];
  }

  lemma ErrorsStacks()
    ensures forall n | 1 <= n <= 4 :: Stack(TWO_ERRORS, n) == [0]
  {
    assert Stack(TWO_ERRORS, 1) == [0];
    assert Stack(TWO_ERRORS, 2) == [0];
    assert Stack(TWO_ERRORS, 3) == [0];
    assert Stack(TWO_ERRORS, 4) == [0];
  }

  lemma ErrorsLinkedAt(i: nat)
    requires i < 5
    ensures LinkedAt([TWO_INSTRUCTIONS], TWO_ERRORS, i)
  {
    hide Stack, Steps;
    ErrorsStacks();
    ErrorsSteps();
  }

  lemma ErrorsLinked()
    ensures Linked([TWO_INSTRUCTIONS], TWO_ERRORS)
    ensures forall n | 1 <= n <= 4 :: Stack(TWO_ERRORS, n) == [0]
  {
    hide LinkedAt, Stack;
    ErrorsStacks();
    forall i | 0 <= i < 5 ensures LinkedAt([TWO_INSTRUCTIONS], TWO_ERRORS, i) {
      ErrorsLinkedAt(i);
    }
  }

  const FIRST := ErrorState(2, Some(0), 2)

  const SECOND := ErrorState(3, Some(0), 2)

  /** The thread after its first instruction and some errors. */
  function Erring(errors: seq<ErrorState>): State {
    State([Frame(0, 0, ONE_STEP, [], [], errors)], 2, 0, 0, NEW_PROCESS)
  }

  lemma ErrorAdded(i: nat, errors: seq<ErrorState>)
    requires i == 2 || i == 3
    ensures Linked([TWO_INSTRUCTIONS], TWO_ERRORS) && CanAdd([TWO_INSTRUCTIONS], TWO_ERRORS, Erring(errors), i)
    ensures AddEvent([TWO_INSTRUCTIONS], TWO_ERRORS, Erring(errors), i) ==
            Erring(errors + [ErrorState(i, Some(0), 2)])
  {
    hide Linked, Stack, Steps;
    ErrorsLinked();
  }

  lemma ErrorsReplay()
    ensures Replays([TWO_INSTRUCTIONS], TWO_ERRORS, NEW_PROCESS)
  {
    hide Linked, Stack, Steps, Restored, ForwardChange, Apply, CanApply;
    ErrorsLinked();
    FirstErring();
    var f, log := [TWO_INSTRUCTIONS], TWO_ERRORS;
    ErrorAdded(2, []);
    ErrorAdded(3, [FIRST]);
    OneMore(f, log, 2, Erring([]));
    assert [] + [FIRST] == [FIRST] && [FIRST] + [SECOND] == [FIRST, SECOND];
    OneMore(f, log, 3, Erring([FIRST]));
    SecondInstruction();
    OneMore(f, log, 4, Erring([FIRST, SECOND]));
  }

  lemma FirstErring()
    ensures Linked([TWO_INSTRUCTIONS], TWO_ERRORS) && Replayable([TWO_INSTRUCTIONS], TWO_ERRORS, NEW_PROCESS, 2)
    ensures ReplayTo([TWO_INSTRUCTIONS], TWO_ERRORS, NEW_PROCESS, 2) == Erring([])
  {
    hide Linked, Stack, Steps;
    ErrorsLinked();
    NoEvent([TWO_INSTRUCTIONS], TWO_ERRORS);
    OneMore([TWO_INSTRUCTIONS], TWO_ERRORS, 0, AtStart(NEW_PROCESS));
    OneMore([TWO_INSTRUCTIONS], TWO_ERRORS, 1, State([NewFrame(0, 0)], 1, 0, 0, NEW_PROCESS));
  }

  lemma SecondInstruction()
    ensures Linked([TWO_INSTRUCTIONS], TWO_ERRORS) && CanAdd([TWO_INSTRUCTIONS], TWO_ERRORS, Erring([FIRST, SECOND]), 4)
  {
    hide Linked, Stack, Steps;
    ErrorsLinked();
  }

  /** Two errors under one instruction: going over the next instruction and back doubles them. */
  lemma ErrorsDouble()
    ensures WellFormed([TWO_INSTRUCTIONS], TWO_ERRORS, NEW_PROCESS) && !ErrorsStay(TWO_ERRORS)
    ensures ErrorsSince(TWO_ERRORS, 0, 4) == [2, 3]
    ensures var moves := Times(Forward, 5, [Backward]);
            && Legal(moves, 0, 5)
            && Safe([TWO_INSTRUCTIONS], TWO_ERRORS, AtStart(NEW_PROCESS), 0, moves)
            && !SameErrors(Go([TWO_INSTRUCTIONS], TWO_ERRORS, AtStart(NEW_PROCESS), 0, moves),
                           Replayed([TWO_INSTRUCTIONS], TWO_ERRORS, NEW_PROCESS, End(moves, 0, 5)))
  {
    hide Safe, Go, Legal, End, Replayed, Replays, Linked, CanRemove, RemoveEvent, Times, SameErrors, Stack, Steps;
    ErrorsReplay();
    ErrorsLinked();
    ErrorsSteps();
    assert ErrorsSince(TWO_ERRORS, 0, 3) == [2];
    assert !ErrorsStayAt(TWO_ERRORS, 4);
    var moves := Times(Forward, 5, [Backward]);
    Overshoot([TWO_INSTRUCTIONS], TWO_ERRORS, NEW_PROCESS, 4);
    WalkTheorem([TWO_INSTRUCTIONS], TWO_ERRORS, NEW_PROCESS, moves);
    RemovedErrors([TWO_INSTRUCTIONS], TWO_ERRORS, NEW_PROCESS, 4);
  }

  // ---------------------------------------------------------------- an error that gets another time

  const ONE_INSTRUCTION := Function([0], [NoSlot])

  /** An error after the only instruction of a function that returns. */
  const LATE_ERROR: Log :=
    [FunctionStart(0, Some(0), Some(3), 1, 3), Instruction(0), RuntimeError(true), FunctionEnd(0)]

  lemma LateStacks()
    ensures forall n | 1 <= n <= 3 :: Stack(LATE_ERROR, n) == [0]
    ensures Steps(LATE_ERROR, 0, 1) == []
    ensures forall n | 2 <= n <= 4 :: Steps(LATE_ERROR, 0, n) == [Step(0, None, true)]
  {
    hide Stack, Steps;
    LateStack();
    LateSteps();
  }

  lemma LateStack()
    ensures forall n | 1 <= n <= 3 :: Stack(LATE_ERROR, n) == [0]
  {
    assert Stack(LATE_ERROR, 1) == [0];
    assert Stack(LATE_ERROR, 2) == [0];
    assert Stack(LATE_ERROR, 3) == [0];
  }

  lemma LateSteps()
    ensures Steps(LATE_ERROR, 0, 1) == []
    ensures forall n | 2 <= n <= 4 :: Steps(LATE_ERROR, 0, n) == [Step(0, None, true)]
  {
    hide Stack;
    LateStack();
    assert Stack(LATE_ERROR, 0) == [] by { EmptyStack(LATE_ERROR); }
    assert Steps(LATE_ERROR, 0, 1) == [];
    assert Steps(LATE_ERROR, 0, 2) == [Step(0, None, true)];
    assert Steps(LATE_ERROR, 0, 3) == [Step(0, None, true)];
  }

  lemma LateLinked()
    ensures Linked([ONE_INSTRUCTION], LATE_ERROR)
  {
    hide Stack, Steps;
    LateStacks();
    assert LinkedAt([ONE_INSTRUCTION], LATE_ERROR, 0);
    assert LinkedAt([ONE_INSTRUCTION], LATE_ERROR, 1);
    assert LinkedAt([ONE_INSTRUCTION], LATE_ERROR, 2);
    assert LinkedAt([ONE_INSTRUCTION], LATE_ERROR, 3);
  }

  function Late(time: int): State {
    State([Frame(0, 0, ONE_STEP, [], [], [ErrorState(2, Some(0), time)])], 2, 0, 0, NEW_PROCESS)
  }

  lemma LateReplays()
    ensures Linked([ONE_INSTRUCTION], LATE_ERROR)
    ensures Replayable([ONE_INSTRUCTION], LATE_ERROR, NEW_PROCESS, 3)
    ensures ReplayTo([ONE_INSTRUCTION], LATE_ERROR, NEW_PROCESS, 3) == Late(2)
  {
    hide Linked, Stack, Steps;
    LateLinked();
    var f, log := [ONE_INSTRUCTION], LATE_ERROR;
    NoEvent(f, log);
    OneMore(f, log, 0, AtStart(NEW_PROCESS));
    OneMore(f, log, 1, State([NewFrame(0, 0)], 1, 0, 0, NEW_PROCESS));
    LateAdded();
    OneMore(f, log, 2, State([Frame(0, 0, ONE_STEP, [], [], [])], 2, 0, 0, NEW_PROCESS));
  }

  lemma LateAdded()
    ensures Linked([ONE_INSTRUCTION], LATE_ERROR)
    ensures var st := State([Frame(0, 0, ONE_STEP, [], [], [])], 2, 0, 0, NEW_PROCESS);
            CanAdd([ONE_INSTRUCTION], LATE_ERROR, st, 2) &&
            AddEvent([ONE_INSTRUCTION], LATE_ERROR, st, 2) == Late(2)
  {
    hide Linked, Stack, Steps;
    LateLinked();
    assert [] + [ErrorState(2, Some(0), 2)] == [ErrorState(2, Some(0), 2)];
  }

  lemma LateReturns()
    ensures Linked([ONE_INSTRUCTION], LATE_ERROR) && CanAdd([ONE_INSTRUCTION], LATE_ERROR, Late(2), 3)
    ensures AddEvent([ONE_INSTRUCTION], LATE_ERROR, Late(2), 3) == State([], 3, 0, 0, NEW_PROCESS)
  {
    hide Linked, Stack, Steps;
    LateLinked();
  }

  lemma LateWellFormed()
    ensures WellFormed([ONE_INSTRUCTION], LATE_ERROR, NEW_PROCESS)
    ensures Replayed([ONE_INSTRUCTION], LATE_ERROR, NEW_PROCESS, 3) == Late(2)
    ensures Replayed([ONE_INSTRUCTION], LATE_ERROR, NEW_PROCESS, 4) == State([], 3, 0, 0, NEW_PROCESS)
  {
    hide Linked, Stack, Steps, CanAdd, AddEvent, Replayable, ReplayTo;
    LateReplays();
    LateReturns();
    OneMore([ONE_INSTRUCTION], LATE_ERROR, 3, Late(2));
    IsReplayed([ONE_INSTRUCTION], LATE_ERROR, NEW_PROCESS, 3);
    IsReplayed([ONE_INSTRUCTION], LATE_ERROR, NEW_PROCESS, 4);
    forall i | 0 <= i < 4 ensures ReaddableAt([ONE_INSTRUCTION], LATE_ERROR, i) {
      LateReaddable(i);
    }
  }

  lemma LateReaddable(i: nat)
    requires i < 4
    ensures Linked([ONE_INSTRUCTION], LATE_ERROR) && ReaddableAt([ONE_INSTRUCTION], LATE_ERROR, i)
  {
    hide Linked, Stack, Steps;
    LateLinked();
    LateStacks();
  }

  lemma LateTimes()
    ensures RerunTime(LATE_ERROR, 0, 2, 3) == 4 && |ErrorsAt(LATE_ERROR, 0, 3)| == 1
    ensures RebuiltErrors(LATE_ERROR, 0, 3, 3) == [ErrorState(2, Some(0), 4)]
  {
    hide Stack, Steps;
    LateStacks();
    assert Stack(LATE_ERROR, 0) == [] by { EmptyStack(LATE_ERROR); }
    assert RerunTime(LATE_ERROR, 0, 1, 3) == 3;
    assert RerunTime(LATE_ERROR, 0, 2, 3) == 4;
    assert RebuiltErrors(LATE_ERROR, 0, 1, 3) == [];
    assert RebuiltErrors(LATE_ERROR, 0, 2, 3) == [];
  }

  lemma LateRebuilt()
    ensures Linked([ONE_INSTRUCTION], LATE_ERROR)
    ensures RebuiltAt([ONE_INSTRUCTION], LATE_ERROR, 0, 3, 3) == Late(4).callStack[0]
  {
    hide Linked, Stack, Replayable, ReplayTo, FrameAt;
    LateReplays();
    LateStacks();
    LateTimes();
    ReplayFrames([ONE_INSTRUCTION], LATE_ERROR, NEW_PROCESS, 3);
    LastFrameAt([ONE_INSTRUCTION], LATE_ERROR, 3);
  }

  /** Going over the end of the function and back leaves its error with a time that is still to come, and no longer
      active. */
  lemma ErrorIsLate()
    ensures WellFormed([ONE_INSTRUCTION], LATE_ERROR, NEW_PROCESS)
    ensures ErrorsStay(LATE_ERROR) && !TimesReturn(LATE_ERROR)
    ensures var moves := Times(Forward, 4, [Backward]);
            && Legal(moves, 0, 4) && End(moves, 0, 4) == 3
            && Safe([ONE_INSTRUCTION], LATE_ERROR, AtStart(NEW_PROCESS), 0, moves)
            && var st := Go([ONE_INSTRUCTION], LATE_ERROR, AtStart(NEW_PROCESS), 0, moves);
               var r := Replayed([ONE_INSTRUCTION], LATE_ERROR, NEW_PROCESS, 3);
               && |st.callStack| == |r.callStack| == 1 && st.threadTime == r.threadTime
               && r.callStack[0].errors == [ErrorState(2, Some(0), 2)]
               && st.callStack[0].errors == [ErrorState(2, Some(0), 4)]
               && r.callStack[0].errors[0].IsActive(r.threadTime)
               && !st.callStack[0].errors[0].IsActive(st.threadTime)
  {
    hide Safe, Go, Legal, End, Replayed, Replays, Linked, CanRemove, RemoveEvent, Times, Stack, Steps, RebuiltAt;
    var f, log := [ONE_INSTRUCTION], LATE_ERROR;
    LateWellFormed();
    LateRebuilt();
    LateStacks();
    Overshoot(f, log, NEW_PROCESS, 3);
    WalkTheorem(f, log, NEW_PROCESS, Times(Forward, 4, [Backward]));
    LateRemoved();
    assert ErrorOf(LATE_ERROR, 0, 2) && !TimesReturnAt(LATE_ERROR, 3);
  }

  lemma LateRemoved()
    requires Linked([ONE_INSTRUCTION], LATE_ERROR)
    requires CanRemove([ONE_INSTRUCTION], LATE_ERROR, State([], 3, 0, 0, NEW_PROCESS), 3)
    ensures var st := RemoveEvent([ONE_INSTRUCTION], LATE_ERROR, State([], 3, 0, 0, NEW_PROCESS), 3);
            st.callStack == Late(4).callStack && st.threadTime == 2
  {
    hide Linked, Stack, Steps, RebuiltAt, CanRemove, FramesBefore, BackwardChange, Revert, CanRevert;
    LateRebuilt();
    RemovedEnd([ONE_INSTRUCTION], LATE_ERROR, State([], 3, 0, 0, NEW_PROCESS), 3);
  }
}
