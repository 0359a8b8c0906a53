/** Any walk over the log of a single-threaded process, forward and backward in any order, ends in a
    state equivalent to plain forward replay to the same position. */
module Walk {
  import opened Common
  import opened Errors
  import opened FrameModel
  import opened Leftovers
  import opened MemoryModel
  import opened ProcessModel
  import opened TraceLog
  import opened Replay

  // ---------------------------------------------------------------- forward replay, frame by frame

  lemma StepsExecutable(functions: seq<Function>, log: Log, start: nat, n: nat)
    requires Linked(functions, log) && start < |log| && n <= |log| && log[start].FunctionStart?
    ensures log[start].fn < |functions|
    ensures Executable(functions[log[start].fn], Steps(log, start, n))
    ensures Executable(functions[log[start].fn], Steps(log, start, |log|))
    ensures Steps(log, start, n) <= Steps(log, start, |log|)
  {
    assert LinkedAt(functions, log, start);
    StepsGrow(log, start, n, |log|);
  }

  /** Events of other invocations leave a frame as it is. */
  lemma FrameAtElsewhere(functions: seq<Function>, log: Log, start: nat, n: nat)
    requires Linked(functions, log) && start < n < |log| && log[start].FunctionStart?
    requires !Local(log, start, n) || !log[n].IsFunctionLevel()
    ensures FrameAt(functions, log, start, n + 1) == FrameAt(functions, log, start, n)
  {
  }

  lemma FrameAtLocal(functions: seq<Function>, log: Log, start: nat, n: nat)
    requires Linked(functions, log) && start < n < |log| && log[start].FunctionStart?
    requires Local(log, start, n) && CanAddToFrame(functions, log, FrameAt(functions, log, start, n), n)
    ensures FrameAt(functions, log, start, n + 1) ==
            FrameAfter(functions, log, FrameAt(functions, log, start, n), ThreadTimeAt(log, n), n)
  {
    assert LinkedAt(functions, log, n);
    StepsExecutable(functions, log, start, n);
    if log[n].IsInstruction() {
      var s := Steps(log, start, n);
      assert (s + [StepOf(log[n])])[..|s|] == s;
    }
  }

  lemma FrameAtStart(functions: seq<Function>, log: Log, n: nat)
    requires Linked(functions, log) && n < |log| && log[n].FunctionStart?
    ensures FrameAt(functions, log, n, n + 1) == NewFrame(n, log[n].fn)
  {
    NothingBefore(functions, log, n, n + 1);
  }

  lemma {:induction false} NothingBefore(functions: seq<Function>, log: Log, start: nat, n: nat)
    requires Linked(functions, log) && n <= start + 1 <= |log| && log[start].FunctionStart?
    ensures Steps(log, start, n) == [] && AllocasAt(functions, log, start, n) == []
    ensures ByValsAt(log, start, n) == [] && ErrorsAt(log, start, n) == []
  {
    if n > 0 {
      NothingBefore(functions, log, start, n - 1);
      assert !Local(log, start, n - 1);
    }
  }

  /** The frames that the open invocations should have before event `n`. */
  ghost function FramesAt(functions: seq<Function>, log: Log, n: nat): (r: seq<Frame>)
    requires Linked(functions, log) && n <= |log|
    ensures |r| == |Stack(log, n)|
    ensures forall j | 0 <= j < |r| :: r[j] == FrameAt(functions, log, Stack(log, n)[j], n)
  {
    var s := Stack(log, n);
    seq(|s|, j requires 0 <= j < |s| => FrameAt(functions, log, s[j], n))
  }

  /** Forward replay keeps, for every open invocation, the frame that a fold over that invocation's
      own events builds, and as its clocks the last times in the log. */
  lemma {:induction false} ReplayFrames(functions: seq<Function>, log: Log, initial: Process, n: nat)
    requires Linked(functions, log) && n <= |log| && initial.Valid() && Replayable(functions, log, initial, n)
    ensures ReplayTo(functions, log, initial, n).callStack == FramesAt(functions, log, n)
    ensures ReplayTo(functions, log, initial, n).view == ViewAt(log, n)
    ensures ReplayTo(functions, log, initial, n).threadTime == ThreadTimeAt(log, n)
  {
    if n > 0 {
      ReplayFrames(functions, log, initial, n - 1);
      FramesStep(functions, log, n - 1);
    }
  }

  lemma FramesStep(functions: seq<Function>, log: Log, i: nat)
    requires Linked(functions, log) && i < |log| && CanAddFrames(functions, log, FramesAt(functions, log, i), i)
    ensures FramesAfter(functions, log, FramesAt(functions, log, i), ThreadTimeAt(log, i), i) ==
            FramesAt(functions, log, i + 1)
  {
    hide FrameAt, FrameAfter, CanAddToFrame, NewFrame, Restored, ThreadTimeAt, ErrorsAt;
    assert LinkedAt(functions, log, i);
    var before, after := Stack(log, i), Stack(log, i + 1);
    var frames := FramesAfter(functions, log, FramesAt(functions, log, i), ThreadTimeAt(log, i), i);
    if log[i].FunctionStart? {
      FrameAtStart(functions, log, i);
    }
    forall j | 0 <= j < |after| ensures frames[j] == FrameAt(functions, log, after[j], i + 1) {
      if j < |before| {
        if j == |before| - 1 && log[i].IsFunctionLevel() {
          FrameAtLocal(functions, log, before[j], i);
        } else {
          FrameAtElsewhere(functions, log, before[j], i);
        }
      }
    }
  }

  lemma NextStep(log: Log, start: nat, n: nat)
    requires n < |log| && log[n].IsInstruction() && Local(log, start, n)
    ensures var k := |Steps(log, start, n)|;
            && |Steps(log, start, n + 1)| == k + 1 <= |Steps(log, start, |log|)|
            && Steps(log, start, |log|)[k] == StepOf(log[n])
            && Steps(log, start, |log|)[..k] == Steps(log, start, n)
  {
    var k := |Steps(log, start, n)|;
    StepsGrow(log, start, n + 1, |log|);
    assert Steps(log, start, n + 1)[k] == StepOf(log[n]);
  }

  // ---------------------------------------------------------------- the relation kept by a walk

  /** A frame reached by walking: equal to the frame of forward replay in all but the values left over
      from events already undone, and the runtime errors, of which there may be more. */
  ghost predicate SameFrame(functions: seq<Function>, log: Log, a: Frame, start: nat, n: nat)
    requires Linked(functions, log) && start < n <= |log| && log[start].FunctionStart?
  {
    StepsExecutable(functions, log, start, n);
    var r := FrameAt(functions, log, start, n);
    && a.start == start && a.fn == r.fn
    && a.allocas == r.allocas && a.byVals == r.byVals
    && |a.errors| >= |r.errors| && (ErrorsReturn(log) ==> a.errors == r.errors)
    && Tracks(functions[r.fn], a.blocks, Steps(log, start, |log|), |Steps(log, start, n)|)
    && (LeavesNothing(functions[r.fn], Steps(log, start, |log|)) ==>
          Exact(functions[r.fn], a.blocks, Steps(log, start, |log|), |Steps(log, start, n)|))
  }

  /** An instruction can be added again after it has been removed: its value is no NaN in a data slot, or it is
      the target of a jump back. */
  ghost predicate ReaddableAt(functions: seq<Function>, log: Log, i: nat)
    requires Linked(functions, log) && i < |log|
  {
    log[i].IsInstruction() ==>
      assert LinkedAt(functions, log, i);
      var start := Stack(log, i)[|Stack(log, i)| - 1];
      StepsExecutable(functions, log, start, i);
      NextStep(log, start, i);
      Repeatable(functions[log[start].fn], Steps(log, start, |log|), |Steps(log, start, i)|)
  }

  ghost predicate SameFrames(functions: seq<Function>, log: Log, frames: seq<Frame>, n: nat)
    requires Linked(functions, log) && n <= |log|
  {
    && |frames| == |Stack(log, n)|
    && forall j | 0 <= j < |frames| :: SameFrame(functions, log, frames[j], Stack(log, n)[j], n)
  }

  /** The time of the next change of the process from event `n` on. */
  function NextChange(log: Log, n: nat): Option<nat>
    requires n <= |log|
    decreases |log| - n
  {
    if n == |log| then None
    else if log[n].IsTimedChange() then Some(log[n].time)
    else NextChange(log, n + 1)
  }

  /** The process time lags by one exactly when a change has been removed whose time an earlier change
      shares: such a change is then still the next one. */
  ghost predicate SameTime(log: Log, time: int, replayed: int, n: nat)
    requires n <= |log|
  {
    || time == replayed
    || (time == replayed - 1 && NextChange(log, n).Some? && NextChange(log, n).value == replayed)
  }

  ghost predicate Walked(functions: seq<Function>, log: Log, initial: Process, st: State, n: nat)
    requires Linked(functions, log) && n <= |log| && initial.Valid() && Replayable(functions, log, initial, n)
  {
    var r := ReplayTo(functions, log, initial, n);
    && st.process.Valid()
    && SameFrames(functions, log, st.callStack, n)
    && st.threadTime == r.threadTime && st.view == r.view
    && SameTime(log, st.time, r.time, n)
    && SameProcess(st.process, r.process)
  }

  // ---------------------------------------------------------------- one event forward

  lemma SameFrameElsewhere(functions: seq<Function>, log: Log, a: Frame, start: nat, n: nat)
    requires Linked(functions, log) && start < n < |log| && log[start].FunctionStart?
    requires !Local(log, start, n) || !log[n].IsFunctionLevel()
    ensures SameFrame(functions, log, a, start, n) <==> SameFrame(functions, log, a, start, n + 1)
  {
    FrameAtElsewhere(functions, log, start, n);
  }

  lemma TracksForward(f: Function, b: Blocks, steps: seq<Step>, k: nat)
    requires Executable(f, steps) && k < |steps| && Tracks(f, b, steps, k)
    ensures steps[k].index < |f.blockOf| && (b.active.Some? ==> b.active.value < |f.blockOf|)
    ensures Tracks(f, Advance(f, b, steps[k]), steps, k + 1)
    ensures Exact(f, b, steps, k) ==> Exact(f, Advance(f, b, steps[k]), steps, k + 1)
  {
    hide Exact, StoreTracks, JumpsTrack, Run, RunTo, Advance;
    AdvanceTracks(f, b, steps, k);
    if Exact(f, b, steps, k) {
      AdvanceExact(f, b, steps, k);
    }
  }

  lemma TracksBackward(f: Function, b: Blocks, steps: seq<Step>, k: nat)
    requires Executable(f, steps) && k < |steps| && Tracks(f, b, steps, k + 1)
    ensures CanRetreat(f, b, StepBefore(steps, k))
    ensures Tracks(f, Retreat(f, b, StepBefore(steps, k)), steps, k)
    ensures LeavesNothing(f, steps) && Exact(f, b, steps, k + 1) ==>
              Exact(f, Retreat(f, b, StepBefore(steps, k)), steps, k)
  {
    hide Exact, Tracks, LeavesNothing, Run, RunTo, Retreat, CanRetreat;
    RetreatTracks(f, b, steps, k);
    if LeavesNothing(f, steps) && Exact(f, b, steps, k + 1) {
      RetreatExact(f, b, steps, k);
    }
  }

  lemma SameFrameInstruction(functions: seq<Function>, log: Log, a: Frame, start: nat, t: int, n: nat)
    requires Linked(functions, log) && start < n < |log| && log[start].FunctionStart?
    requires Local(log, start, n) && log[n].IsInstruction() && SameFrame(functions, log, a, start, n)
    requires ReaddableAt(functions, log, n)
    requires t == ThreadTimeAt(log, n)
    ensures CanAddToFrame(functions, log, a, n)
    ensures SameFrame(functions, log, FrameAfter(functions, log, a, t, n), start, n + 1)
  {
    hide Tracks, Advance, Settable, Run, Restored, Executable;
    StepsExecutable(functions, log, start, n);
    NextStep(log, start, n);
    TracksForward(functions[a.fn], a.blocks, Steps(log, start, |log|), |Steps(log, start, n)|);
    TracksSettable(functions[a.fn], a.blocks, Steps(log, start, |log|), |Steps(log, start, n)|);
  }

  lemma SameActive(functions: seq<Function>, log: Log, a: Frame, start: nat, n: nat)
    requires Linked(functions, log) && start < n <= |log| && log[start].FunctionStart?
    requires SameFrame(functions, log, a, start, n)
    ensures a.blocks.active == FrameAt(functions, log, start, n).blocks.active
  {
    hide Run, AllocasAt, ByValsAt, Exact, LeavesNothing, ErrorsReturn, ErrorsAt, StoreTracks, JumpsTrack, Eventual;
    StepsExecutable(functions, log, start, n);
    var steps, k := Steps(log, start, |log|), |Steps(log, start, n)|;
    assert steps[..k] == Steps(log, start, n);
  }

  lemma SameFrameOther(functions: seq<Function>, log: Log, a: Frame, start: nat, t: int, n: nat)
    requires Linked(functions, log) && start < n < |log| && log[start].FunctionStart?
    requires Local(log, start, n) && CanAddToFrame(functions, log, FrameAt(functions, log, start, n), n)
    requires !log[n].IsInstruction() && SameFrame(functions, log, a, start, n)
    requires t == ThreadTimeAt(log, n)
    ensures CanAddToFrame(functions, log, a, n)
    ensures SameFrame(functions, log, FrameAfter(functions, log, a, t, n), start, n + 1)
  {
    hide Tracks, Exact, LeavesNothing, Run, AllocasAt, ByValsAt, ErrorsReturn, Settable, Restored, AllocaAt, ErrorsAt,
      ThreadTimeAt;
    FrameAtLocal(functions, log, start, n);
    SameActive(functions, log, a, start, n);
    assert Steps(log, start, n + 1) == Steps(log, start, n);
  }

  lemma SameFrameForward(functions: seq<Function>, log: Log, a: Frame, start: nat, t: int, n: nat)
    requires Linked(functions, log) && start < n < |log| && log[start].FunctionStart?
    requires Local(log, start, n) && CanAddToFrame(functions, log, FrameAt(functions, log, start, n), n)
    requires SameFrame(functions, log, a, start, n) && ReaddableAt(functions, log, n)
    requires t == ThreadTimeAt(log, n)
    ensures CanAddToFrame(functions, log, a, n)
    ensures SameFrame(functions, log, FrameAfter(functions, log, a, t, n), start, n + 1)
  {
    if log[n].IsInstruction() {
      SameFrameInstruction(functions, log, a, start, t, n);
    } else {
      SameFrameOther(functions, log, a, start, t, n);
    }
  }

  lemma SameNewFrame(functions: seq<Function>, log: Log, n: nat)
    requires Linked(functions, log) && n < |log| && log[n].FunctionStart?
    ensures SameFrame(functions, log, NewFrame(n, log[n].fn), n, n + 1)
  {
    FrameAtStart(functions, log, n);
    NothingBefore(functions, log, n, n + 1);
    StepsExecutable(functions, log, n, n + 1);
    RunTracks(functions[log[n].fn], Steps(log, n, |log|), 0);
  }

  /** The change that an event makes depends on the areas of the innermost frame only. */
  lemma ForwardChangeTop(log: Log, frames: seq<Frame>, expected: seq<Frame>, n: nat)
    requires RestoresRefer(log) && n < |log|
    requires (log[n].Alloca? ==> IsAlloca(log, n)) && (log[n].Malloc? ==> LastPtr(log, n).Some?)
    requires log[n].FunctionEnd? || log[n].StackRestore? ==>
               && frames != [] && expected != []
               && frames[|frames| - 1].allocas == expected[|expected| - 1].allocas
               && frames[|frames| - 1].byVals == expected[|expected| - 1].byVals
    ensures ForwardChange(log, frames, n) == ForwardChange(log, expected, n)
  {
    hide ChangeOf, AllocaAreas, ByValAreas, Restored, CommonPrefix;
  }

  lemma SameTop(functions: seq<Function>, log: Log, frames: seq<Frame>, n: nat)
    requires Linked(functions, log) && n <= |log| && SameFrames(functions, log, frames, n) && Stack(log, n) != []
    ensures frames != [] && |FramesAt(functions, log, n)| == |frames|
    ensures var top, expected := frames[|frames| - 1], FramesAt(functions, log, n)[|frames| - 1];
            top.allocas == expected.allocas && top.byVals == expected.byVals
  {
    hide Tracks, AllocasAt, ByValsAt, Run, Stack, Steps, Exact, LeavesNothing, ErrorsReturn;
    FrameIn(functions, log, frames, n, |frames| - 1);
  }

  lemma ForwardChangeSame(functions: seq<Function>, log: Log, frames: seq<Frame>, n: nat)
    requires Linked(functions, log) && n < |log| && SameFrames(functions, log, frames, n)
    requires log[n].StackRestore? || log[n].FunctionEnd? ==> FramesAt(functions, log, n) != []
    ensures LinkedAt(functions, log, n)
    ensures log[n].StackRestore? || log[n].FunctionEnd? ==> frames != []
    ensures ForwardChange(log, frames, n) == ForwardChange(log, FramesAt(functions, log, n), n)
  {
    hide FramesAt, ForwardChange, SameFrames, Stack;
    assert LinkedAt(functions, log, n);
    if log[n].StackRestore? || log[n].FunctionEnd? {
      SameTop(functions, log, frames, n);
    }
    ForwardChangeTop(log, frames, FramesAt(functions, log, n), n);
  }

  lemma FrameIn(functions: seq<Function>, log: Log, frames: seq<Frame>, n: nat, j: nat)
    requires Linked(functions, log) && n <= |log| && SameFrames(functions, log, frames, n) && j < |frames|
    ensures |frames| == |Stack(log, n)| && SameFrame(functions, log, frames[j], Stack(log, n)[j], n)
  {
    hide SameFrame, FrameAt, Stack;
  }

  lemma SameStart(functions: seq<Function>, log: Log, a: Frame, start: nat, n: nat)
    requires Linked(functions, log) && start < n <= |log| && log[start].FunctionStart?
    requires SameFrame(functions, log, a, start, n)
    ensures a.start == start == FrameAt(functions, log, start, n).start
  {
  }

  lemma SameStack(log: Log, n: nat)
    requires n < |log| && log[n].IsFunctionLevel()
    ensures Stack(log, n + 1) == Stack(log, n)
  {
  }

  /** The frames that event `n` is not about. */
  lemma FramesElsewhere(functions: seq<Function>, log: Log, frames: seq<Frame>, n: nat, j: nat)
    requires Linked(functions, log) && n < |log| && j < |frames| && j < |Stack(log, n)|
    requires j < |Stack(log, n)| - 1 || !log[n].IsFunctionLevel()
    ensures SameFrame(functions, log, frames[j], Stack(log, n)[j], n) ==
            SameFrame(functions, log, frames[j], Stack(log, n)[j], n + 1)
  {
    hide SameFrame, FrameAt;
    SameFrameElsewhere(functions, log, frames[j], Stack(log, n)[j], n);
  }

  /** Replacing the innermost of the frames. */
  lemma WithTop(functions: seq<Function>, log: Log, frames: seq<Frame>, f: Frame, stack: seq<nat>, n: nat)
    requires Linked(functions, log) && n <= |log| && stack == Stack(log, n) && |frames| == |stack| && stack != []
    requires SameFrame(functions, log, f, stack[|stack| - 1], n)
    requires forall j | 0 <= j < |stack| - 1 :: SameFrame(functions, log, frames[j], stack[j], n)
    ensures SameFrames(functions, log, frames[..|frames| - 1] + [f], n)
  {
    hide SameFrame, FrameAt, Stack;
  }

  lemma CanAddTop(functions: seq<Function>, log: Log, n: nat)
    requires Linked(functions, log) && n < |log| && CanAddFrames(functions, log, FramesAt(functions, log, n), n)
    requires log[n].IsFunctionLevel()
    ensures Stack(log, n) != []
    ensures var start := Stack(log, n)[|Stack(log, n)| - 1];
            Local(log, start, n) && CanAddToFrame(functions, log, FrameAt(functions, log, start, n), n)
  {
    hide FrameAt, CanAddToFrame;
  }

  lemma FramesAfterLocal(functions: seq<Function>, log: Log, frames: seq<Frame>, t: int, n: nat)
    requires RestoresRefer(log) && n < |log| && log[n].IsFunctionLevel() && frames != []
    requires CanAddToFrame(functions, log, frames[|frames| - 1], n)
    ensures CanAddFrames(functions, log, frames, n)
    ensures FramesAfter(functions, log, frames, t, n) ==
            frames[..|frames| - 1] + [FrameAfter(functions, log, frames[|frames| - 1], t, n)]
  {
    hide FrameAfter, CanAddToFrame, Restored;
  }

  lemma FramesBeforeLocal(functions: seq<Function>, log: Log, frames: seq<Frame>, t: int, i: nat)
    requires Linked(functions, log) && i < |log| && log[i].IsFunctionLevel() && frames != []
    requires CanRemoveFromFrame(functions, log, frames[|frames| - 1], i)
    ensures CanRemoveFrames(functions, log, frames, i)
    ensures FramesBefore(functions, log, frames, t, i) ==
            frames[..|frames| - 1] + [FrameBefore(functions, log, frames[|frames| - 1], t, i)]
  {
    hide FrameBefore, CanRemoveFromFrame, AllocasAt, Stack;
  }

  lemma FramesForwardLocal(functions: seq<Function>, log: Log, frames: seq<Frame>, t: int, n: nat)
    requires Linked(functions, log) && n < |log| && CanAddFrames(functions, log, FramesAt(functions, log, n), n)
    requires SameFrames(functions, log, frames, n) && log[n].IsFunctionLevel() && ReaddableAt(functions, log, n)
    requires t == ThreadTimeAt(log, n)
    ensures CanAddFrames(functions, log, frames, n)
    ensures SameFrames(functions, log, FramesAfter(functions, log, frames, t, n), n + 1)
  {
    hide SameFrame, FrameAt, FrameAfter, CanAddToFrame, FramesAt, FramesAfter, CanAddFrames, Stack, ThreadTimeAt,
      ReaddableAt;
    CanAddTop(functions, log, n);
    SameStack(log, n);
    var stack := Stack(log, n);
    var top := |stack| - 1;
    FrameIn(functions, log, frames, n, top);
    SameFrameForward(functions, log, frames[top], stack[top], t, n);
    FramesAfterLocal(functions, log, frames, t, n);
    forall j | 0 <= j < top ensures SameFrame(functions, log, frames[j], stack[j], n + 1) {
      FrameIn(functions, log, frames, n, j);
      FramesElsewhere(functions, log, frames, n, j);
    }
    WithTop(functions, log, frames, FrameAfter(functions, log, frames[top], t, n), stack, n + 1);
  }

  lemma FramesForwardOther(functions: seq<Function>, log: Log, frames: seq<Frame>, t: int, n: nat)
    requires Linked(functions, log) && n < |log| && CanAddFrames(functions, log, FramesAt(functions, log, n), n)
    requires SameFrames(functions, log, frames, n) && !log[n].IsFunctionLevel()
    ensures CanAddFrames(functions, log, frames, n)
    ensures SameFrames(functions, log, FramesAfter(functions, log, frames, t, n), n + 1)
  {
    hide Linked, SameFrame, FrameAt, FrameAfter, CanAddToFrame, Restored, Steps, AllocasAt, Tracks;
    var before, after := Stack(log, n), Stack(log, n + 1);
    if log[n].FunctionStart? {
      SameNewFrame(functions, log, n);
    } else if log[n].FunctionEnd? {
      var top := |before| - 1;
      SameStart(functions, log, frames[top], before[top], n);
    }
    forall j | 0 <= j < |after| && j < |before| ensures SameFrame(functions, log, frames[j], before[j], n + 1) {
      FramesElsewhere(functions, log, frames, n, j);
    }
  }

  lemma CanAddParts(functions: seq<Function>, log: Log, st: State, i: nat)
    requires Linked(functions, log) && i < |log| && st.process.Valid() && CanAdd(functions, log, st, i)
    ensures LinkedAt(functions, log, i)
    ensures CanAddFrames(functions, log, st.callStack, i)
    ensures CanApply(st.process, ForwardChange(log, st.callStack, i))
  {
  }

  lemma CanAddSome(functions: seq<Function>, log: Log, frames: seq<Frame>, i: nat)
    requires RestoresRefer(log) && i < |log| && CanAddFrames(functions, log, frames, i)
    ensures log[i].StackRestore? || log[i].FunctionEnd? ==> frames != []
  {
    hide CanAddToFrame;
  }

  /** The frames and the process after one event has been added, and the clocks. */
  lemma PartsForward(functions: seq<Function>, log: Log, st: State, r: State, n: nat)
    requires Linked(functions, log) && n < |log| && st.process.Valid() && r.process.Valid()
    requires CanAdd(functions, log, r, n) && r.callStack == FramesAt(functions, log, n)
    requires SameFrames(functions, log, st.callStack, n) && SameProcess(st.process, r.process)
    requires ReaddableAt(functions, log, n)
    requires st.threadTime == r.threadTime == ThreadTimeAt(log, n)
    requires st.view == r.view && SameTime(log, st.time, r.time, n)
    ensures CanAdd(functions, log, st, n)
    ensures var a, b := AddEvent(functions, log, st, n), AddEvent(functions, log, r, n);
            && SameFrames(functions, log, a.callStack, n + 1) && SameProcess(a.process, b.process)
            && a.threadTime == b.threadTime && a.view == b.view && SameTime(log, a.time, b.time, n + 1)
  {
    hide SameFrames, SameProcess, Apply, CanApply, FramesAt, FramesAfter, ForwardChange, CanAddFrames, Stack, Steps;
    if log[n].IsFunctionLevel() {
      FramesForwardLocal(functions, log, st.callStack, st.threadTime, n);
    } else {
      FramesForwardOther(functions, log, st.callStack, st.threadTime, n);
    }
    CanAddParts(functions, log, r, n);
    CanAddSome(functions, log, r.callStack, n);
    ForwardChangeSame(functions, log, st.callStack, n);
    ApplyRespects(st.process, r.process, ForwardChange(log, r.callStack, n));
  }

  /** Adding the next event keeps the relation, and never trips an assertion of the source. */
  lemma StepForward(functions: seq<Function>, log: Log, initial: Process, st: State, n: nat)
    requires Linked(functions, log) && n < |log| && initial.Valid() && Replayable(functions, log, initial, n + 1)
    requires Walked(functions, log, initial, st, n) && ReaddableAt(functions, log, n)
    ensures CanAdd(functions, log, st, n)
    ensures Walked(functions, log, initial, AddEvent(functions, log, st, n), n + 1)
  {
    hide SameFrames, SameProcess, CanAdd, AddEvent, FramesAt, SameTime, Stack;
    ReplayFrames(functions, log, initial, n);
    PartsForward(functions, log, st, ReplayTo(functions, log, initial, n), n);
  }

  // ---------------------------------------------------------------- one event backward

  /** The by-value area that is removed for an address: the first that contains it. */
  function FirstByVal(byVals: seq<ByVal>, address: nat): (r: Option<nat>)
    ensures r.Some? ==> r.value < |byVals| && byVals[r.value].Contains(address)
    ensures forall k | 0 <= k < (if r.Some? then r.value else |byVals|) :: !byVals[k].Contains(address)
  {
    if byVals == [] then None
    else if byVals[0].Contains(address) then Some(0)
    else match FirstByVal(byVals[1..], address)
      case None => None
      case Some(k) => Some(k + 1)
  }

  lemma {:induction false} RemovesFirst(byVals: seq<ByVal>, address: nat)
    ensures RemoveByVal(byVals, address) ==
            match FirstByVal(byVals, address)
            case None => byVals
            case Some(k) => byVals[..k] + byVals[k + 1..]
  {
    if byVals != [] && !byVals[0].Contains(address) {
      RemovesFirst(byVals[1..], address);
      assert byVals == [byVals[0]] + byVals[1..];
    }
  }

  /** The area that was added last is the one removed if and only if it is not empty, since an empty one contains
      nothing, and no area before it contains its address. */
  lemma RemoveLastByVal(byVals: seq<ByVal>, b: ByVal)
    ensures FirstByVal(byVals + [b], b.address) == Some(|byVals|) <==>
            b.size > 0 && forall k | 0 <= k < |byVals| :: !byVals[k].Contains(b.address)
    ensures FirstByVal(byVals + [b], b.address) == Some(|byVals|) ==> RemoveByVal(byVals + [b], b.address) == byVals
  {
    RemovesFirst(byVals + [b], b.address);
    assert (byVals + [b])[|byVals|] == b;
    assert forall k | 0 <= k < |byVals| :: (byVals + [b])[k] == byVals[k];
  }

  /** Removing an empty area: none goes, or another that contains its address. */
  lemma OtherByValGoes()
    ensures RemoveByVal([ByVal(0, 8, 0)], 8) == [ByVal(0, 8, 0)]
    ensures RemoveByVal([ByVal(0, 8, 4), ByVal(1, 8, 0)], 8) == [ByVal(1, 8, 0)]
  {
    RemovesFirst([ByVal(0, 8, 4), ByVal(1, 8, 0)], 8);
  }

  lemma SameFrameBackInstruction(functions: seq<Function>, log: Log, a: Frame, start: nat, t: int, i: nat)
    requires Linked(functions, log) && start < i < |log| && log[start].FunctionStart?
    requires Local(log, start, i) && log[i].IsInstruction() && SameFrame(functions, log, a, start, i + 1)
    ensures CanRemoveFromFrame(functions, log, a, i)
    ensures SameFrame(functions, log, FrameBefore(functions, log, a, t, i), start, i)
  {
    hide Tracks, Exact, Retreat, CanRetreat, Run, LeavesNothing, Restored, Executable, ErrorsSince;
    StepsExecutable(functions, log, start, i);
    NextStep(log, start, i);
    var steps, k := Steps(log, start, |log|), |Steps(log, start, i)|;
    assert k > 0 ==> Steps(log, start, i)[k - 1] == steps[k - 1];
    TracksBackward(functions[a.fn], a.blocks, steps, k);
    if ErrorsReturn(log) {
      assert ErrorsStayAt(log, i);
    }
  }

  lemma SameFrameBackOther(functions: seq<Function>, log: Log, a: Frame, start: nat, t: int, i: nat)
    requires Linked(functions, log) && start < i < |log| && log[start].FunctionStart?
    requires Local(log, start, i) && CanAddToFrame(functions, log, FrameAt(functions, log, start, i), i)
    requires !log[i].IsInstruction() && log[i].IsFunctionLevel() && SameFrame(functions, log, a, start, i + 1)
    requires log[i].StackRestore? ==> Restartable(log, start, i)
    ensures CanRemoveFromFrame(functions, log, a, i)
    ensures SameFrame(functions, log, FrameBefore(functions, log, a, t, i), start, i)
  {
    FrameAtLocal(functions, log, start, i);
    assert Steps(log, start, i + 1) == Steps(log, start, i);
    if log[i].ByValRegionAdd? {
      RemoveLastByVal(ByValsAt(log, start, i), ByVal(log[i].argument, log[i].address, log[i].size));
    }
  }

  lemma SameFrameBackward(functions: seq<Function>, log: Log, a: Frame, start: nat, t: int, i: nat)
    requires Linked(functions, log) && start < i < |log| && log[start].FunctionStart?
    requires Local(log, start, i) && CanAddToFrame(functions, log, FrameAt(functions, log, start, i), i)
    requires log[i].IsFunctionLevel() && SameFrame(functions, log, a, start, i + 1)
    requires log[i].StackRestore? ==> Restartable(log, start, i)
    ensures CanRemoveFromFrame(functions, log, a, i)
    ensures SameFrame(functions, log, FrameBefore(functions, log, a, t, i), start, i)
  {
    if log[i].IsInstruction() {
      SameFrameBackInstruction(functions, log, a, start, t, i);
    } else {
      SameFrameBackOther(functions, log, a, start, t, i);
    }
  }

  /** The rebuilt frame of a returned function is its frame in forward replay, but for the times of its errors. */
  lemma SameRebuiltFrame(functions: seq<Function>, log: Log, start: nat, t: int, i: nat)
    requires Linked(functions, log) && start < i < |log| && log[start].FunctionStart?
    requires log[i].FunctionEnd? && log[i].functionStart == start
    ensures SameFrame(functions, log, RebuiltAt(functions, log, start, i, t), start, i)
  {
    hide Tracks, Exact, Executable, LeavesNothing, TimesReturnAt, RebuiltErrors, ErrorsAt;
    if ErrorsReturn(log) {
      assert TimesReturnAt(log, i);
      RebuiltRight(log, start, i, i, t);
    }
    StepsExecutable(functions, log, start, i);
    var steps, k := Steps(log, start, |log|), |Steps(log, start, i)|;
    assert steps[..k] == Steps(log, start, i);
    RunTracks(functions[log[start].fn], steps, k);
    RunExact(functions[log[start].fn], steps, k);
  }

  lemma AllocasStep(functions: seq<Function>, log: Log, start: nat, i: nat)
    requires Linked(functions, log) && i < |log| && Local(log, start, i)
    ensures LinkedAt(functions, log, i)
    ensures log[i].Alloca? ==>
              AllocasAt(functions, log, start, i + 1) == AllocasAt(functions, log, start, i) + [AllocaAt(log, i)]
    ensures log[i].StackRestore? ==> AllocasAt(functions, log, start, i + 1) == Restored(log, i + 1)
  {
    assert LinkedAt(functions, log, i);
  }

  lemma TopFrameAt(functions: seq<Function>, log: Log, n: nat)
    requires Linked(functions, log) && n <= |log| && Stack(log, n) != []
    ensures var frames, stack := FramesAt(functions, log, n), Stack(log, n);
            && frames != []
            && frames[|frames| - 1].start == stack[|stack| - 1]
            && frames[|frames| - 1].allocas == AllocasAt(functions, log, stack[|stack| - 1], n)
  {
    hide AllocasAt, Run, Steps, ErrorsAt, ByValsAt, ThreadTimeAt, Stack;
  }

  lemma BackwardAllocas(functions: seq<Function>, log: Log, frames: seq<Frame>, expected: seq<Frame>, i: nat)
    requires Linked(functions, log) && i < |log| && frames != [] && expected != []
    requires var start := frames[|frames| - 1].start;
             && Local(log, start, i)
             && frames[|frames| - 1].allocas == AllocasAt(functions, log, start, i + 1)
             && expected[|expected| - 1].allocas == AllocasAt(functions, log, start, i)
    requires log[i].Alloca? || log[i].StackRestore?
    ensures LinkedAt(functions, log, i)
    ensures log[i].Alloca? ==> frames[|frames| - 1].allocas != []
    ensures BackwardChange(functions, log, frames, i) == ForwardChange(log, expected, i)
  {
    AllocasStep(functions, log, frames[|frames| - 1].start, i);
  }

  lemma EndsTop(functions: seq<Function>, log: Log, i: nat)
    requires Linked(functions, log) && i < |log| && log[i].FunctionEnd?
    ensures LinkedAt(functions, log, i)
    ensures Stack(log, i) != [] && log[i].functionStart == Stack(log, i)[|Stack(log, i)| - 1]
    ensures Stack(log, i + 1) == Stack(log, i)[..|Stack(log, i)| - 1]
  {
    assert LinkedAt(functions, log, i);
  }

  lemma LastFrameAt(functions: seq<Function>, log: Log, n: nat)
    requires Linked(functions, log) && n <= |log| && Stack(log, n) != []
    ensures var frames, stack := FramesAt(functions, log, n), Stack(log, n);
            frames != [] && frames[|frames| - 1] == FrameAt(functions, log, stack[|stack| - 1], n)
  {
    hide FrameAt;
  }

  lemma BackwardEnd(functions: seq<Function>, log: Log, frames: seq<Frame>, i: nat)
    requires Linked(functions, log) && i < |log| && log[i].FunctionEnd? && FramesAt(functions, log, i) != []
    ensures BackwardChange(functions, log, frames, i) == ForwardChange(log, FramesAt(functions, log, i), i)
  {
    hide FrameAt, FrameAreas, FramesAt;
    EndsTop(functions, log, i);
    LastFrameAt(functions, log, i);
  }

  /** Removing an event reverts exactly the change that adding it made. */
  lemma BackwardChangeSame(functions: seq<Function>, log: Log, frames: seq<Frame>, i: nat)
    requires Linked(functions, log) && i < |log| && CanAddFrames(functions, log, FramesAt(functions, log, i), i)
    requires SameFrames(functions, log, frames, i + 1)
    ensures LinkedAt(functions, log, i)
    ensures log[i].Alloca? || log[i].StackRestore? ==> frames != []
    ensures log[i].Alloca? ==> frames[|frames| - 1].allocas != []
    ensures BackwardChange(functions, log, frames, i) == ForwardChange(log, FramesAt(functions, log, i), i)
  {
    if log[i].Alloca? || log[i].StackRestore? {
      BackwardAllocaChange(functions, log, frames, i);
    } else if log[i].FunctionEnd? {
      BackwardEnd(functions, log, frames, i);
    }
    assert LinkedAt(functions, log, i);
  }

  lemma BackwardAllocaChange(functions: seq<Function>, log: Log, frames: seq<Frame>, i: nat)
    requires Linked(functions, log) && i < |log| && CanAddFrames(functions, log, FramesAt(functions, log, i), i)
    requires SameFrames(functions, log, frames, i + 1) && (log[i].Alloca? || log[i].StackRestore?)
    ensures LinkedAt(functions, log, i)
    ensures frames != [] && FramesAt(functions, log, i) != []
    ensures log[i].Alloca? ==> frames[|frames| - 1].allocas != []
    ensures BackwardChange(functions, log, frames, i) == ForwardChange(log, FramesAt(functions, log, i), i)
  {
    hide BackwardChange, ForwardChange, SameFrames, CanAddFrames, AllocasAt, FramesAt, LinkedAt, Stack;
    CanAddTop(functions, log, i);
    SameStack(log, i);
    SameTopAllocas(functions, log, frames, i + 1);
    TopFrameAt(functions, log, i);
    BackwardAllocas(functions, log, frames, FramesAt(functions, log, i), i);
  }

  lemma SameTopAllocas(functions: seq<Function>, log: Log, frames: seq<Frame>, n: nat)
    requires Linked(functions, log) && n <= |log| && Stack(log, n) != [] && SameFrames(functions, log, frames, n)
    ensures frames != []
    ensures var top := frames[|frames| - 1];
            && top.start == Stack(log, n)[|Stack(log, n)| - 1]
            && top.allocas == AllocasAt(functions, log, top.start, n)
  {
    hide AllocasAt, FramesAt, Tracks, Exact, LeavesNothing, ErrorsReturn, Run, Steps, Stack;
    FrameIn(functions, log, frames, n, |frames| - 1);
  }

  lemma FramesBackwardLocal(functions: seq<Function>, log: Log, frames: seq<Frame>, t: int, i: nat)
    requires Linked(functions, log) && i < |log| && CanAddFrames(functions, log, FramesAt(functions, log, i), i)
    requires SameFrames(functions, log, frames, i + 1) && log[i].IsFunctionLevel() && RestartableAt(log, i)
    ensures CanRemoveFrames(functions, log, frames, i)
    ensures SameFrames(functions, log, FramesBefore(functions, log, frames, t, i), i)
  {
    hide SameFrame, FrameAt, FrameBefore, CanRemoveFromFrame, FramesAt, FramesBefore, CanRemoveFrames, Stack;
    CanAddTop(functions, log, i);
    SameStack(log, i);
    var stack := Stack(log, i);
    var top := |stack| - 1;
    FrameIn(functions, log, frames, i + 1, top);
    SameFrameBackward(functions, log, frames[top], stack[top], t, i);
    FramesBeforeLocal(functions, log, frames, t, i);
    forall j | 0 <= j < top ensures SameFrame(functions, log, frames[j], stack[j], i) {
      FrameIn(functions, log, frames, i + 1, j);
      FramesElsewhere(functions, log, frames, i, j);
    }
    WithTop(functions, log, frames, FrameBefore(functions, log, frames[top], t, i), stack, i);
  }

  lemma FramesBeforeEnd(functions: seq<Function>, log: Log, frames: seq<Frame>, t: int, i: nat)
    requires Linked(functions, log) && i < |log| && log[i].FunctionEnd?
    ensures log[i].functionStart < i && log[log[i].functionStart].FunctionStart?
    ensures CanRemoveFrames(functions, log, frames, i)
    ensures FramesBefore(functions, log, frames, t, i) ==
            frames + [RebuiltAt(functions, log, log[i].functionStart, i, t)]
  {
    hide FrameAt;
    assert LinkedAt(functions, log, i);
  }

  lemma FramesBackwardEnd(functions: seq<Function>, log: Log, frames: seq<Frame>, t: int, i: nat)
    requires Linked(functions, log) && i < |log| && log[i].FunctionEnd? && SameFrames(functions, log, frames, i + 1)
    ensures SameFrames(functions, log, FramesBefore(functions, log, frames, t, i), i)
  {
    hide SameFrame, FrameAt, FramesBefore, CanRemoveFrames;
    EndsTop(functions, log, i);
    FramesBeforeEnd(functions, log, frames, t, i);
    var stack := Stack(log, i);
    var start := stack[|stack| - 1];
    var f := RebuiltAt(functions, log, start, i, t);
    forall j | 0 <= j < |stack| - 1 ensures SameFrame(functions, log, (frames + [f])[j], stack[j], i) {
      FrameIn(functions, log, frames, i + 1, j);
      FramesElsewhere(functions, log, frames, i, j);
    }
    SameRebuiltFrame(functions, log, start, t, i);
    WithTop(functions, log, frames + [f], f, stack, i);
    assert (frames + [f])[..|frames|] + [f] == FramesBefore(functions, log, frames, t, i);
  }

  lemma StartedFrame(functions: seq<Function>, log: Log, a: Frame, i: nat)
    requires Linked(functions, log) && i < |log| && log[i].FunctionStart? && SameFrame(functions, log, a, i, i + 1)
    ensures a.fn == log[i].fn
  {
  }

  lemma FramesBackwardOther(functions: seq<Function>, log: Log, frames: seq<Frame>, t: int, i: nat)
    requires Linked(functions, log) && i < |log| && SameFrames(functions, log, frames, i + 1)
    requires !log[i].IsFunctionLevel() && !log[i].FunctionEnd?
    ensures CanRemoveFrames(functions, log, frames, i)
    ensures SameFrames(functions, log, FramesBefore(functions, log, frames, t, i), i)
  {
    hide SameFrame, FrameAt, FrameBefore, CanRemoveFromFrame;
    var before := Stack(log, i);
    if log[i].FunctionStart? {
      FrameIn(functions, log, frames, i + 1, |before|);
      StartedFrame(functions, log, frames[|before|], i);
    }
    forall j | 0 <= j < |before| ensures SameFrame(functions, log, frames[j], before[j], i) {
      FrameIn(functions, log, frames, i + 1, j);
      FramesElsewhere(functions, log, frames, i, j);
    }
  }

  lemma FramesBackward(functions: seq<Function>, log: Log, frames: seq<Frame>, t: int, i: nat)
    requires Linked(functions, log) && i < |log| && CanAddFrames(functions, log, FramesAt(functions, log, i), i)
    requires SameFrames(functions, log, frames, i + 1) && RestartableAt(log, i)
    ensures CanRemoveFrames(functions, log, frames, i)
    ensures SameFrames(functions, log, FramesBefore(functions, log, frames, t, i), i)
  {
    if log[i].IsFunctionLevel() {
      FramesBackwardLocal(functions, log, frames, t, i);
    } else if log[i].FunctionEnd? {
      FramesBackwardEnd(functions, log, frames, t, i);
    } else {
      FramesBackwardOther(functions, log, frames, t, i);
    }
  }

  /** Going back undoes the three clocks. */
  lemma ClocksBackward(functions: seq<Function>, log: Log, st: State, r: State, i: nat)
    requires Linked(functions, log) && i < |log| && r.process.Valid() && CanAdd(functions, log, r, i)
    requires st.threadTime == AddEvent(functions, log, r, i).threadTime && r.view == ViewAt(log, i)
    requires st.view == AddEvent(functions, log, r, i).view
    requires SameTime(log, st.time, AddEvent(functions, log, r, i).time, i + 1)
    requires st.process.Valid() && CanRemove(functions, log, st, i)
    ensures var b := RemoveEvent(functions, log, st, i);
            b.threadTime == r.threadTime && b.view == r.view && SameTime(log, b.time, r.time, i)
  {
    hide Apply, Revert, CanApply, CanRevert, FramesAfter, FramesBefore, ForwardChange, BackwardChange, CanAddFrames,
      CanRemoveFrames, Stack, Steps;
    assert LinkedAt(functions, log, i);
  }

  /** The frames and the process after one event has been removed. */
  lemma PartsBackward(functions: seq<Function>, log: Log, st: State, r: State, i: nat)
    requires Linked(functions, log) && i < |log| && st.process.Valid() && r.process.Valid()
    requires CanAdd(functions, log, r, i) && r.callStack == FramesAt(functions, log, i) && RestartableAt(log, i)
    requires SameFrames(functions, log, st.callStack, i + 1)
    requires SameProcess(st.process, AddEvent(functions, log, r, i).process)
    ensures CanRemove(functions, log, st, i)
    ensures SameFrames(functions, log, RemoveEvent(functions, log, st, i).callStack, i)
    ensures SameProcess(RemoveEvent(functions, log, st, i).process, r.process)
  {
    hide SameFrames, SameProcess, Apply, Revert, CanApply, CanRevert, FramesAt, FramesAfter, FramesBefore,
      ForwardChange, BackwardChange, CanAddFrames, CanRemoveFrames, RestartableAt, Stack;
    CanAddParts(functions, log, r, i);
    FramesBackward(functions, log, st.callStack, st.threadTime, i);
    BackwardChangeSame(functions, log, st.callStack, i);
    RevertRestores(st.process, r.process, ForwardChange(log, r.callStack, i));
  }

  /** Removing the previous event keeps the relation, and never trips an assertion of the source. */
  lemma StepBackward(functions: seq<Function>, log: Log, initial: Process, st: State, i: nat)
    requires Linked(functions, log) && i < |log| && initial.Valid() && Replayable(functions, log, initial, i + 1)
    requires Walked(functions, log, initial, st, i + 1) && RestartableAt(log, i)
    ensures CanRemove(functions, log, st, i)
    ensures Walked(functions, log, initial, RemoveEvent(functions, log, st, i), i)
  {
    hide SameFrames, SameProcess, CanAdd, CanRemove, AddEvent, RemoveEvent, FramesAt, SameTime, RestartableAt, Stack;
    var r := ReplayTo(functions, log, initial, i);
    ReplayFrames(functions, log, initial, i);
    ReplayFrames(functions, log, initial, i + 1);
    PartsBackward(functions, log, st, r, i);
    ClocksBackward(functions, log, st, r, i);
  }
}
