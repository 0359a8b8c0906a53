/** When every walk over a log answers, for every instruction of every open function, what forward replay does. */
module WalkAnswers {
  import opened Common
  import opened Errors
  import opened FrameModel
  import opened Leftovers
  import opened MemoryModel
  import opened Moves
  import opened ProcessModel
  import opened TraceLog
  import opened Replay
  import opened Walk
  import opened AnyWalk

  /** The getters of the two frames answer alike. */
  ghost predicate SameAnswersIn(functions: seq<Function>, a: Frame, r: Frame) {
    && r.fn < |functions|
    && forall i | 0 <= i < |functions[r.fn].blockOf| ::
         Answer(functions[r.fn], a.blocks, i) == Answer(functions[r.fn], r.blocks, i)
  }

  ghost predicate SameAnswers(functions: seq<Function>, st: State, r: State) {
    && |st.callStack| == |r.callStack|
    && forall j | 0 <= j < |r.callStack| :: SameAnswersIn(functions, st.callStack[j], r.callStack[j])
  }

  /** No invocation has a jump that leaves a value. */
  ghost predicate LogLeavesNothing(functions: seq<Function>, log: Log)
    requires Linked(functions, log)
  {
    forall s | 0 <= s < |log| && log[s].FunctionStart? :: InvocationLeavesNothing(functions, log, s)
  }

  ghost predicate InvocationLeavesNothing(functions: seq<Function>, log: Log, s: nat)
    requires Linked(functions, log) && s < |log| && log[s].FunctionStart?
  {
    StepsExecutable(functions, log, s, |log|);
    LeavesNothing(functions[log[s].fn], Steps(log, s, |log|))
  }

  // ---------------------------------------------------------------- nothing left over

  lemma FrameAnswers(functions: seq<Function>, log: Log, a: Frame, start: nat, n: nat)
    requires Linked(functions, log) && start < n <= |log| && log[start].FunctionStart?
    requires SameFrame(functions, log, a, start, n) && InvocationLeavesNothing(functions, log, start)
    ensures SameAnswersIn(functions, a, FrameAt(functions, log, start, n))
  {
    hide Linked, Run, Tracks, Exact, LeavesNothing, Answer, LastValue, Stack, Steps, AllocasAt, ByValsAt, ErrorsAt;
    StepsExecutable(functions, log, start, n);
    var f, steps, k := functions[log[start].fn], Steps(log, start, |log|), |Steps(log, start, n)|;
    assert steps[..k] == Steps(log, start, n) by { StepsGrow(log, start, n, |log|); }
    forall i | 0 <= i < |f.blockOf| ensures Answer(f, a.blocks, i) == Answer(f, RunTo(f, steps, k), i) {
      AnswerIsLast(f, steps, k, i);
      ExactAnswers(f, a.blocks, steps, k, i);
    }
  }

  lemma WalkedAnswersAlike(functions: seq<Function>, log: Log, initial: Process, st: State, n: nat)
    requires Linked(functions, log) && n <= |log| && initial.Valid() && Replayable(functions, log, initial, n)
    requires Walked(functions, log, initial, st, n) && LogLeavesNothing(functions, log)
    ensures SameAnswers(functions, st, ReplayTo(functions, log, initial, n))
  {
    hide Linked, Replayable, ReplayTo, SameFrame, FrameAt, SameAnswersIn, SameProcess, SameTime, Stack,
      InvocationLeavesNothing;
    ReplayFrames(functions, log, initial, n);
    var r := ReplayTo(functions, log, initial, n);
    forall j | 0 <= j < |r.callStack| ensures SameAnswersIn(functions, st.callStack[j], r.callStack[j]) {
      FrameAnswers(functions, log, st.callStack[j], Stack(log, n)[j], n);
    }
  }

  lemma AnswersAreRight(functions: seq<Function>, log: Log, initial: Process, moves: seq<Move>)
    requires WellFormed(functions, log, initial) && Legal(moves, 0, |log|) && LogLeavesNothing(functions, log)
    ensures Safe(functions, log, AtStart(initial), 0, moves)
    ensures SameAnswers(functions, Go(functions, log, AtStart(initial), 0, moves),
                        Replayed(functions, log, initial, End(moves, 0, |log|)))
  {
    hide Linked, Replayable, ReplayTo, Safe, Go, Legal, End, Walked, SameAnswers, LogLeavesNothing;
    StartsWalked(functions, log, initial);
    GoWalked(functions, log, initial, AtStart(initial), 0, moves);
    WalkedAnswersAlike(functions, log, initial, Go(functions, log, AtStart(initial), 0, moves),
                       End(moves, 0, |log|));
    IsReplayed(functions, log, initial, End(moves, 0, |log|));
  }

  // ---------------------------------------------------------------- the events of one invocation

  /** The event of step `k` of an invocation. */
  lemma {:induction false} StepEvent(log: Log, s: nat, k: nat, n: nat) returns (e: nat)
    requires n <= |log| && k < |Steps(log, s, n)|
    ensures e < n && Local(log, s, e) && log[e].IsInstruction() && |Steps(log, s, e)| == k
  {
    hide Local;
    if k < |Steps(log, s, n - 1)| {
      e := StepEvent(log, s, k, n - 1);
    } else {
      e := n - 1;
    }
  }

  /** An invocation that is open at an event has been open, at the same depth, ever since it started. */
  lemma {:induction false} StaysOpen(log: Log, s: nat, d: nat, p: nat, e: nat)
    requires s < p <= e <= |log| && d < |Stack(log, e)| && Stack(log, e)[d] == s
    ensures d < |Stack(log, p)| && Stack(log, p)[d] == s
    decreases e - p
  {
    if p < e {
      StaysOpen(log, s, d, p, e - 1);
    }
  }

  // ---------------------------------------------------------------- a value that shows

  /** The frame of the invocation that started at `s` still holds a value for instruction `i` of block `x`, and
      the jumps of forward replay. */
  ghost predicate Held(functions: seq<Function>, log: Log, st: State, s: nat, d: nat, x: nat, i: nat, p: nat)
    requires Linked(functions, log) && s < |log| && log[s].FunctionStart? && p <= |log|
  {
    StepsExecutable(functions, log, s, p);
    StepsGrow(log, s, p, |log|);
    && d < |st.callStack| && st.callStack[d].start == s && st.callStack[d].fn == log[s].fn
    && HeldIn(functions[log[s].fn], st.callStack[d].blocks, Steps(log, s, |log|), |Steps(log, s, p)|, x, i)
  }

  ghost predicate HeldIn(f: Function, b: Blocks, steps: seq<Step>, k: nat, x: nat, i: nat)
    requires Executable(f, steps) && k <= |steps|
  {
    b.jumps == RunTo(f, steps, k).jumps && x in b.stores && i in b.stores[x]
  }

  /** Removing an event of another invocation, or one that is no instruction, leaves the values of a frame alone. */
  lemma FrameUntouched(functions: seq<Function>, log: Log, frames: seq<Frame>, t: int, q: nat, d: nat)
    requires Linked(functions, log) && q < |log| && CanRemoveFrames(functions, log, frames, q)
    requires |frames| == |Stack(log, q + 1)| && d < |Stack(log, q)| && d < |frames|
    requires d < |Stack(log, q)| - 1 || !log[q].IsInstruction()
    ensures var after := FramesBefore(functions, log, frames, t, q);
            && d < |after| && after[d].start == frames[d].start && after[d].fn == frames[d].fn
            && after[d].blocks == frames[d].blocks
  {
    hide Linked, FrameAt, AllocasAt, CanRetreat, Retreat, Previous, ErrorsSince, Restartable;
  }

  lemma FrameRetreated(functions: seq<Function>, log: Log, frames: seq<Frame>, t: int, q: nat)
    requires Linked(functions, log) && q < |log| && CanRemoveFrames(functions, log, frames, q)
    requires |frames| == |Stack(log, q + 1)| && log[q].IsInstruction()
    ensures frames != [] && frames[|frames| - 1].fn < |functions|
    ensures var top, after := |frames| - 1, FramesBefore(functions, log, frames, t, q);
            var previous := Previous(log, frames[top].start, q);
            && |after| == |frames| == |Stack(log, q)|
            && CanRetreat(functions[frames[top].fn], frames[top].blocks, previous)
            && after[top].start == frames[top].start && after[top].fn == frames[top].fn
            && after[top].blocks == Retreat(functions[frames[top].fn], frames[top].blocks, previous)
  {
    hide Linked, FrameAt, AllocasAt, CanRetreat, Retreat, Previous, ErrorsSince, Restartable;
  }

  lemma SameSteps(log: Log, s: nat, q: nat)
    requires q < |log| && !(Local(log, s, q) && log[q].IsInstruction())
    ensures Steps(log, s, q + 1) == Steps(log, s, q)
  {
  }

  /** One event back, the value is still there, unless it is in a block that the removed jump puts back. */
  lemma BackHeldOnce(functions: seq<Function>, log: Log, st: State, q: nat, s: nat, d: nat, x: nat, i: nat)
    requires Linked(functions, log) && q < |log| && s < q && log[s].FunctionStart? && st.process.Valid()
    requires CanRemove(functions, log, st, q) && SameFrames(functions, log, st.callStack, q + 1)
    requires Held(functions, log, st, s, d, x, i, q + 1)
    requires d < |Stack(log, q)| && Stack(log, q)[d] == s
    requires KeptAt(functions, log, s, q, x)
    ensures Held(functions, log, RemoveEvent(functions, log, st, q), s, d, x, i, q)
  {
    hide Linked, CanRemove, RemoveEvent, SameFrame, FramesBefore, CanRemoveFrames, Run, RunTo, Executable, Retreat,
      CanRetreat, Stack, HeldIn, Steps, KeptAt, Previous;
    RemovedFrames(functions, log, st, q);
    if Local(log, s, q) && log[q].IsInstruction() {
      FrameRetreated(functions, log, st.callStack, st.threadTime, q);
      TopOnce(log, s, d, q);
      InstructionOnTop(functions, log, q);
      FrameIn(functions, log, st.callStack, q + 1, d);
      StepsExecutable(functions, log, s, q + 1);
      StepsGrow(log, s, q + 1, |log|);
      HeldInstruction(functions, log, st.callStack[d], s, q, x, i);
    } else {
      OtherDepth(log, s, d, q);
      FrameUntouched(functions, log, st.callStack, st.threadTime, q, d);
      SameSteps(log, s, q);
    }
  }

  lemma RemovedFrames(functions: seq<Function>, log: Log, st: State, q: nat)
    requires Linked(functions, log) && q < |log| && st.process.Valid() && CanRemove(functions, log, st, q)
    ensures CanRemoveFrames(functions, log, st.callStack, q)
    ensures RemoveEvent(functions, log, st, q).callStack == FramesBefore(functions, log, st.callStack, st.threadTime, q)
  {
    hide Linked, CanRemoveFrames, FramesBefore, BackwardChange, CanRevert, Revert, Stack, Steps;
  }

  lemma TopOnce(log: Log, s: nat, d: nat, q: nat)
    requires q <= |log| && d < |Stack(log, q)| && Stack(log, q)[d] == s && Local(log, s, q)
    ensures d == |Stack(log, q)| - 1
  {
  }

  lemma OtherDepth(log: Log, s: nat, d: nat, q: nat)
    requires q < |log| && d < |Stack(log, q)| && Stack(log, q)[d] == s
    ensures Local(log, s, q) || d < |Stack(log, q)| - 1
  {
  }

  /** The step of event `q`, if it jumps over block `x`, finds no store there. */
  ghost predicate KeptAt(functions: seq<Function>, log: Log, s: nat, q: nat, x: nat)
    requires Linked(functions, log) && s < |log| && log[s].FunctionStart? && q < |log|
  {
    StepsExecutable(functions, log, s, q);
    StepsGrow(log, s, q, |log|);
    var f, steps, k := functions[log[s].fn], Steps(log, s, |log|), |Steps(log, s, q)|;
    Local(log, s, q) && log[q].IsInstruction() && Clears(f, steps, k, x) ==> x !in RunTo(f, steps, k).stores
  }

  lemma HeldInstruction(functions: seq<Function>, log: Log, a: Frame, s: nat, q: nat, x: nat, i: nat)
    requires Linked(functions, log) && s < q < |log| && log[s].FunctionStart?
    requires Local(log, s, q) && log[q].IsInstruction() && SameFrame(functions, log, a, s, q + 1)
    requires log[s].fn < |functions| && Executable(functions[log[s].fn], Steps(log, s, |log|))
    requires CanRetreat(functions[log[s].fn], a.blocks, Previous(log, s, q)) && KeptAt(functions, log, s, q, x)
    requires |Steps(log, s, q + 1)| <= |Steps(log, s, |log|)|
    requires HeldIn(functions[log[s].fn], a.blocks, Steps(log, s, |log|), |Steps(log, s, q + 1)|, x, i)
    ensures |Steps(log, s, q)| <= |Steps(log, s, |log|)|
    ensures HeldIn(functions[log[s].fn], Retreat(functions[log[s].fn], a.blocks, Previous(log, s, q)),
                   Steps(log, s, |log|), |Steps(log, s, q)|, x, i)
  {
    hide Linked, Retreat, CanRetreat, Run, RunTo, Tracks, Exact, LeavesNothing, Executable, AllocasAt, ErrorsReturn;
    NextStep(log, s, q);
    var steps, k := Steps(log, s, |log|), |Steps(log, s, q)|;
    assert k > 0 ==> Steps(log, s, q)[k - 1] == steps[k - 1];
    assert Previous(log, s, q) == StepBefore(steps, k);
    BackOnce(functions[log[s].fn], steps, a.blocks, k, x, i);
  }

  lemma {:induction false} ReplayIsWalked(functions: seq<Function>, log: Log, initial: Process, n: nat)
    requires WellFormed(functions, log, initial) && n <= |log|
    ensures Replayable(functions, log, initial, n)
    ensures Walked(functions, log, initial, Replayed(functions, log, initial, n), n)
  {
    hide Linked, Replayable, ReplayTo, Walked, CanAdd, AddEvent, Replayed, ReaddableAt;
    IsReplayed(functions, log, initial, n);
    if n == 0 {
      StartsWalked(functions, log, initial);
      ReplayedStart(functions, log, initial);
    } else {
      ReplayIsWalked(functions, log, initial, n - 1);
      StepForward(functions, log, initial, Replayed(functions, log, initial, n - 1), n - 1);
      ReplayedNext(functions, log, initial, n - 1);
    }
  }

  ghost predicate KeptOpen(functions: seq<Function>, log: Log, s: nat, d: nat, p: nat, x: nat)
    requires Linked(functions, log) && s < |log| && log[s].FunctionStart? && p < |log|
  {
    KeptAt(functions, log, s, p, x) && d < |Stack(log, p)| && Stack(log, p)[d] == s
  }

  /** The moves lead from one state to another. */
  ghost predicate Reaches(functions: seq<Function>, log: Log, st: State, n: nat, moves: seq<Move>, r: State, m: nat)
    requires Linked(functions, log) && n <= |log| && st.process.Valid()
  {
    hide Safe, Go, Legal, End, Linked;
    && Legal(moves, n, |log|) && End(moves, n, |log|) == m
    && Safe(functions, log, st, n, moves) && Go(functions, log, st, n, moves) == r
  }

  /** Back from event `q + n` to event `q`, with the value still there. */
  lemma {:induction false} BackHeld(functions: seq<Function>, log: Log, initial: Process, st: State, q: nat, n: nat,
                                    s: nat, d: nat, x: nat, i: nat) returns (moves: seq<Move>, r: State)
    requires WellFormed(functions, log, initial) && s < q && q + n <= |log| && log[s].FunctionStart?
    requires Replayable(functions, log, initial, q + n) && Walked(functions, log, initial, st, q + n)
    requires Held(functions, log, st, s, d, x, i, q + n)
    requires forall p | q <= p < q + n :: KeptOpen(functions, log, s, d, p, x)
    ensures Reaches(functions, log, st, q + n, moves, r, q)
    ensures Replayable(functions, log, initial, q) && Walked(functions, log, initial, r, q)
    ensures Held(functions, log, r, s, d, x, i, q)
    decreases n
  {
    hide Linked, Replayable, ReplayTo, SameFrames, SameProcess, SameTime, CanRemove, RemoveEvent, CanAdd, AddEvent,
      Held, KeptAt, RestartableAt, ReaddableAt, Stack;
    if n == 0 {
      moves, r := [], st;
    } else {
      var p := q + n - 1;
      ReplayablePrefix(functions, log, initial, p, |log|);
      StepBackward(functions, log, initial, st, p);
      assert KeptOpen(functions, log, s, d, p, x);
      BackHeldOnce(functions, log, st, p, s, d, x, i);
      var rest: seq<Move>;
      rest, r := BackHeld(functions, log, initial, RemoveEvent(functions, log, st, p), q, n - 1, s, d, x, i);
      moves := [Backward] + rest;
      assert moves[1..] == rest;
    }
  }

  /** Between the jump and the step that stores the value, nothing clears the block again. */
  lemma KeptBetween(functions: seq<Function>, log: Log, s: nat, j: nat, x: nat, m: nat, low: nat, high: nat, p: nat)
    requires Linked(functions, log) && s < low <= p <= high < |log| && log[s].FunctionStart?
    requires log[s].fn < |functions| && Executable(functions[log[s].fn], Steps(log, s, |log|))
    requires Leaves(functions[log[s].fn], Steps(log, s, |log|), j, x, m)
    requires |Steps(log, s, low)| == j && |Steps(log, s, high)| == m && Local(log, s, high)
    ensures KeptOpen(functions, log, s, |Stack(log, high)| - 1, p, x)
  {
    hide Linked, Run, RunTo, Executable, Stack, Steps;
    StepsGrow(log, s, low, p);
    StepsGrow(log, s, p, high);
    StaysOpen(log, s, |Stack(log, high)| - 1, p, high);
  }

  /** The value that forward replay holds right after the step that stored it. */
  lemma StoredHeld(functions: seq<Function>, log: Log, initial: Process, s: nat, m: nat, e: nat)
    requires Replays(functions, log, initial) && s < e < |log| && log[s].FunctionStart?
    requires Local(log, s, e) && log[e].IsInstruction() && |Steps(log, s, e)| == m
    requires log[s].fn < |functions| && Executable(functions[log[s].fn], Steps(log, s, |log|))
    requires m < |Steps(log, s, |log|)| && Storable(functions[log[s].fn], Steps(log, s, |log|)[m])
    ensures var i := Steps(log, s, |log|)[m].index;
            Held(functions, log, Replayed(functions, log, initial, e + 1), s, |Stack(log, e)| - 1,
                 functions[log[s].fn].blockOf[i], i, e + 1)
  {
    hide Linked, Replayable, ReplayTo, Replayed, Run, Executable, FramesAt, Steps, AllocasAt, ByValsAt, ErrorsAt, Stack;
    IsReplayed(functions, log, initial, e + 1);
    ReplayFrames(functions, log, initial, e + 1);
    InstructionOnTop(functions, log, e);
    LastFrameAt(functions, log, e + 1);
    NextStep(log, s, e);
    StepsGrow(log, s, e + 1, |log|);
    LeftInStore(functions[log[s].fn], Steps(log, s, |log|), m);
    FramesDeep(functions, log, e + 1);
    assert Steps(log, s, |log|)[..m + 1] == Steps(log, s, e + 1);
  }

  lemma FramesDeep(functions: seq<Function>, log: Log, n: nat)
    requires Linked(functions, log) && n <= |log|
    ensures |FramesAt(functions, log, n)| == |Stack(log, n)|
  {
    hide FrameAt;
  }

  lemma RunToIs(f: Function, steps: seq<Step>, k: nat)
    requires Executable(f, steps) && k <= |steps|
    ensures Executable(f, steps[..k]) && RunTo(f, steps, k) == Run(f, steps[..k])
  {
  }

  /** Where the value shows: the frame holds it and forward replay does not answer. */
  lemma HeldShows(functions: seq<Function>, log: Log, initial: Process, st: State, s: nat, d: nat, j: nat, x: nat,
                  m: nat, e: nat)
    requires Replays(functions, log, initial) && s < e < |log| && log[s].FunctionStart?
    requires Replayable(functions, log, initial, e) && Walked(functions, log, initial, st, e)
    requires |Steps(log, s, e)| == j && d < |Stack(log, e)| && Stack(log, e)[d] == s
    requires log[s].fn < |functions| && Executable(functions[log[s].fn], Steps(log, s, |log|))
    requires Leaves(functions[log[s].fn], Steps(log, s, |log|), j, x, m)
    requires Held(functions, log, st, s, d, x, Steps(log, s, |log|)[m].index, e)
    ensures !SameAnswers(functions, st, Replayed(functions, log, initial, e))
  {
    hide Linked, Replayable, ReplayTo, Replayed, Run, RunTo, FramesAt, Steps, AllocasAt, ByValsAt, ErrorsAt, Stack,
      Tracks, Exact, LeavesNothing, Answer, SameProcess, SameTime, ErrorsReturn;
    IsReplayed(functions, log, initial, e);
    ReplayFrames(functions, log, initial, e);
    FramesDeep(functions, log, e);
    FrameIn(functions, log, st.callStack, e, d);
    StepsGrow(log, s, e, |log|);
    var f, steps, r := functions[log[s].fn], Steps(log, s, |log|), Replayed(functions, log, initial, e);
    assert steps[..j] == Steps(log, s, e);
    LeftoverIsAnswered(f, steps, st.callStack[d].blocks, j, x, m);
    assert r.callStack[d].blocks == RunTo(f, steps, j) by { RunToIs(f, steps, j); }
    assert !SameAnswersIn(functions, st.callStack[d], r.callStack[d]);
  }

  /** A jump that leaves a value makes some walk answer what forward replay does not. */
  lemma LeftoverShowsInLog(functions: seq<Function>, log: Log, initial: Process, s: nat) returns (moves: seq<Move>)
    requires WellFormed(functions, log, initial) && s < |log| && log[s].FunctionStart?
    requires !InvocationLeavesNothing(functions, log, s)
    ensures Legal(moves, 0, |log|) && Safe(functions, log, AtStart(initial), 0, moves)
    ensures !SameAnswers(functions, Go(functions, log, AtStart(initial), 0, moves),
                         Replayed(functions, log, initial, End(moves, 0, |log|)))
  {
    hide Linked, Safe, Go, Legal, End, Replayable, ReplayTo, Replayed, Walked, Leaves, Held, Steps, Stack, Executable,
      SameAnswers, KeptOpen, Times, Rewindable, Readdable;
    StepsExecutable(functions, log, s, |log|);
    var j, x, m, low, high := TwoEvents(functions, log, s);
    var d := |Stack(log, high)| - 1;
    var i, f := Steps(log, s, |log|)[m].index, functions[log[s].fn];
    StoredHeld(functions, log, initial, s, m, high);
    ReplayIsWalked(functions, log, initial, high + 1);
    forall p | low <= p < high + 1 ensures KeptOpen(functions, log, s, d, p, x) {
      KeptBetween(functions, log, s, j, x, m, low, high, p);
    }
    var r: State;
    moves, r := BackHeld(functions, log, initial, Replayed(functions, log, initial, high + 1), low, high + 1 - low,
                         s, d, x, i);
    StaysAtDepth(functions, log, s, j, x, m, low, high);
    HeldShows(functions, log, initial, r, s, d, j, x, m, low);
    Onwards(functions, log, initial, 0, high + 1, moves);
    ReplayedStart(functions, log, initial);
    moves := Times(Forward, high + 1, moves);
  }

  lemma StaysAtDepth(functions: seq<Function>, log: Log, s: nat, j: nat, x: nat, m: nat, low: nat, high: nat)
    requires Linked(functions, log) && s < low <= high < |log| && Local(log, s, high)
    ensures |Stack(log, high)| - 1 < |Stack(log, low)| && Stack(log, low)[|Stack(log, high)| - 1] == s
  {
    hide Stack;
    StaysOpen(log, s, |Stack(log, high)| - 1, low, high);
  }

  /** The events of the jump and of the step that leaves a value behind it. */
  lemma TwoEvents(functions: seq<Function>, log: Log, s: nat)
    returns (j: nat, x: nat, m: nat, low: nat, high: nat)
    requires Linked(functions, log) && s < |log| && log[s].FunctionStart?
    requires !InvocationLeavesNothing(functions, log, s)
    ensures log[s].fn < |functions| && Executable(functions[log[s].fn], Steps(log, s, |log|))
    ensures Leaves(functions[log[s].fn], Steps(log, s, |log|), j, x, m)
    ensures m < |Steps(log, s, |log|)| && Storable(functions[log[s].fn], Steps(log, s, |log|)[m])
    ensures functions[log[s].fn].blockOf[Steps(log, s, |log|)[m].index] == x
    ensures s < low <= high < |log| && Local(log, s, high) && log[high].IsInstruction()
    ensures |Steps(log, s, low)| == j && |Steps(log, s, high)| == m
  {
    hide Linked, Steps, Stack, Run, RunTo, Executable;
    StepsExecutable(functions, log, s, |log|);
    var f, steps := functions[log[s].fn], Steps(log, s, |log|);
    j, x, m :| Leaves(f, steps, j, x, m);
    low := StepEvent(log, s, j, |log|);
    high := StepEvent(log, s, m, |log|);
    if high < low {
      NextStep(log, s, high);
      StepsGrow(log, s, high + 1, low);
    }
  }

  /** After every walk all frames answer exactly as after forward replay, if and only if no jump of any invocation
      leaves a value. */
  lemma AnswersRightIff(functions: seq<Function>, log: Log, initial: Process)
    requires WellFormed(functions, log, initial)
    ensures (forall moves | Legal(moves, 0, |log|) ::
               Safe(functions, log, AtStart(initial), 0, moves) &&
               SameAnswers(functions, Go(functions, log, AtStart(initial), 0, moves),
                           Replayed(functions, log, initial, End(moves, 0, |log|))))
            <==> LogLeavesNothing(functions, log)
  {
    hide Linked, Safe, Go, Legal, End, Replayed, SameAnswers, InvocationLeavesNothing, Replayable;
    if LogLeavesNothing(functions, log) {
      forall moves | Legal(moves, 0, |log|)
        ensures Safe(functions, log, AtStart(initial), 0, moves)
        ensures SameAnswers(functions, Go(functions, log, AtStart(initial), 0, moves),
                            Replayed(functions, log, initial, End(moves, 0, |log|)))
      {
        AnswersAreRight(functions, log, initial, moves);
      }
    } else {
      var s :| 0 <= s < |log| && log[s].FunctionStart? && !InvocationLeavesNothing(functions, log, s);
      var moves := LeftoverShowsInLog(functions, log, initial, s);
    }
  }
}
