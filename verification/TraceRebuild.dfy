/** What the re-runs of rewinding rely on.
    The events of child calls leave a frame alone, a search that finds nothing leaves its fold alone, and
    every event of a frame can be added to it again. */
module TraceRebuild {
  import opened Common
  import opened Errors
  import opened FrameModel
  import MemoryModel
  import opened ProcessModel
  import opened TraceLog
  import opened Replay
  import opened Walk
  import opened AnyWalk
  import opened TraceSearch

  lemma {:induction false} FrameGap(functions: seq<Function>, log: Log, start: nat, low: nat, high: nat)
    requires Linked(functions, log) && start < low <= high <= |log| && log[start].FunctionStart?
    requires forall j | low <= j < high :: !Local(log, start, j) || !log[j].IsFunctionLevel()
    ensures FrameAt(functions, log, start, low) == FrameAt(functions, log, start, high)
    decreases high
  {
    hide Linked, Local, FrameAt;
    if low < high {
      FrameGap(functions, log, start, low, high - 1);
      FrameAtElsewhere(functions, log, start, high - 1);
    }
  }

  /** A call made by an invocation, from its start to its end, leaves the invocation's frame alone. */
  lemma SkipChild(functions: seq<Function>, log: Log, start: nat, c: nat, n: nat)
    requires Linked(functions, log) && start < c < n <= |log| && log[start].FunctionStart? && log[c].FunctionStart?
    requires Local(log, start, c) && Local(log, start, n)
    ensures log[c].endAt.Some? && c < log[c].endAt.value < n && Local(log, start, log[c].endAt.value + 1)
    ensures FrameAt(functions, log, start, log[c].endAt.value + 1) == FrameAt(functions, log, start, c)
  {
    hide Linked, Local, FrameAt, Stack;
    ChildStart(functions, log, start, c, n);
    ChildEnd(functions, log, start, log[c].endAt.value);
    FrameGap(functions, log, start, c, log[c].endAt.value + 1);
  }

  // ---------------------------------------------------------------- a re-run, event by event

  lemma RebuiltStart(functions: seq<Function>, log: Log, n: nat, t: int)
    requires Linked(functions, log) && n < |log| && log[n].FunctionStart?
    ensures RebuiltAt(functions, log, n, n + 1, t) == NewFrame(n, log[n].fn) && RerunTime(log, n, n + 1, t) == t
  {
    hide Linked, Stack;
    FrameAtStart(functions, log, n);
    NothingBefore(functions, log, n, n + 1);
  }

  /** An event of the invocation, added at the time that the re-run has reached. */
  lemma RebuiltLocal(functions: seq<Function>, log: Log, start: nat, n: nat, t: int)
    requires Linked(functions, log) && start < n < |log| && log[start].FunctionStart?
    requires Local(log, start, n) && log[n].IsFunctionLevel()
    requires CanAddToFrame(functions, log, FrameAt(functions, log, start, n), n)
    ensures CanAddToFrame(functions, log, RebuiltAt(functions, log, start, n, t), n)
    ensures RebuiltAt(functions, log, start, n + 1, t) ==
            FrameAfter(functions, log, RebuiltAt(functions, log, start, n, t), RerunTime(log, start, n, t), n)
  {
    hide Linked, Stack, Restored, AllocaAt, AllocasAt, Settable, RerunTime;
    FrameAtLocal(functions, log, start, n);
  }

  /** What is no event of the invocation changes nothing of the rebuilt frame. */
  lemma RebuiltElsewhere(functions: seq<Function>, log: Log, start: nat, n: nat, t: int)
    requires Linked(functions, log) && start < n < |log| && log[start].FunctionStart?
    requires !Local(log, start, n) || !log[n].IsFunctionLevel()
    ensures RebuiltAt(functions, log, start, n + 1, t) == RebuiltAt(functions, log, start, n, t)
  {
    hide Linked, FrameAt, Local;
    FrameAtElsewhere(functions, log, start, n);
  }

  lemma {:induction false} RebuiltGap(functions: seq<Function>, log: Log, start: nat, low: nat, high: nat, t: int)
    requires Linked(functions, log) && start < low <= high <= |log| && log[start].FunctionStart?
    requires forall j | low <= j < high :: !Local(log, start, j) || !log[j].IsFunctionLevel()
    ensures RebuiltAt(functions, log, start, low, t) == RebuiltAt(functions, log, start, high, t)
    decreases high
  {
    hide Linked, Local, RebuiltAt;
    if low < high {
      RebuiltGap(functions, log, start, low, high - 1, t);
      RebuiltElsewhere(functions, log, start, high - 1, t);
    }
  }

  /** Skipping a call leaves the rebuilt frame alone, and sets the time. */
  lemma SkipRebuilt(functions: seq<Function>, log: Log, start: nat, c: nat, n: nat, t: int)
    requires Linked(functions, log) && start < c < n <= |log| && log[start].FunctionStart? && log[c].FunctionStart?
    requires Local(log, start, c) && Local(log, start, n)
    ensures log[c].endAt.Some? && c < log[c].endAt.value < n && Local(log, start, log[c].endAt.value + 1)
    ensures RebuiltAt(functions, log, start, log[c].endAt.value + 1, t) == RebuiltAt(functions, log, start, c, t)
    ensures RerunTime(log, start, log[c].endAt.value + 1, t) == log[c].exited
  {
    hide Linked, Local, RebuiltAt, Stack;
    ChildStart(functions, log, start, c, n);
    ChildEnd(functions, log, start, log[c].endAt.value);
    RebuiltGap(functions, log, start, c, log[c].endAt.value + 1, t);
  }

  /** The time of the re-run after one more event of the invocation. */
  lemma RerunNext(log: Log, start: nat, n: nat, t: int)
    requires start < n < |log| && Local(log, start, n) && !log[n].FunctionStart? && !log[n].FunctionEnd?
    ensures RerunTime(log, start, n + 1, t) == RerunTime(log, start, n, t) + if log[n].IsInstruction() then 1 else 0
  {
  }

  lemma LocalNext(functions: seq<Function>, log: Log, start: nat, i: nat)
    requires i < |log| && Local(log, start, i) && InFunction(log[i])
    ensures Local(log, start, i + 1)
  {
  }

  /** The end of an invocation is its last event. */
  lemma EndsOnce(functions: seq<Function>, log: Log, i: nat, j: nat)
    requires Linked(functions, log) && j <= i < |log| && log[i].FunctionEnd? && log[j].FunctionEnd?
    requires Local(log, log[i].functionStart, j)
    ensures i == j
  {
    assert LinkedAt(functions, log, i) && LinkedAt(functions, log, j);
  }

  lemma EndIsLocal(functions: seq<Function>, log: Log, i: nat)
    requires Linked(functions, log) && i < |log| && log[i].FunctionEnd?
    ensures var s := log[i].functionStart;
            && s < i && log[s].FunctionStart? && log[s].fn < |functions| && functions[log[s].fn].Valid()
            && log[s].startAt == Some(s) && Local(log, s, i) && Local(log, s, s + 1)
  {
    assert LinkedAt(functions, log, i) && LinkedAt(functions, log, log[i].functionStart);
  }

  /** An event of an invocation can be added to the invocation's frame. */
  lemma CanAddLocal(functions: seq<Function>, log: Log, initial: Process, start: nat, i: nat)
    requires WellFormed(functions, log, initial) && i < |log| && Local(log, start, i) && log[i].IsFunctionLevel()
    ensures start < i && log[start].FunctionStart?
    ensures CanAddToFrame(functions, log, FrameAt(functions, log, start, i), i)
  {
    hide Linked, FrameAt, CanAddToFrame, CanApply, ForwardChange, ReplayTo, FramesAt, CanAddFrames;
    ReplayablePrefix(functions, log, initial, i + 1, |log|);
    ReplayFrames(functions, log, initial, i);
    CanAddParts(functions, log, ReplayTo(functions, log, initial, i), i);
    CanAddTop(functions, log, i);
  }

  // ---------------------------------------------------------------- the previous instruction

  lemma {:induction false} StepsGap(log: Log, start: nat, low: nat, high: nat)
    requires low <= high <= |log| && Misses(log, start, low, high, AnInstruction)
    ensures Steps(log, start, high) == Steps(log, start, low)
    decreases high
  {
    if low < high {
      StepsGap(log, start, low, high - 1);
    }
  }

  /** The search for an instruction finds the last step. */
  lemma FoundPrevious(log: Log, start: nat, r: Option<nat>, i: nat)
    requires i <= |log| && (r.Some? ==> r.value < i && Local(log, start, r.value) && log[r.value].IsInstruction())
    requires Misses(log, start, if r.Some? then r.value + 1 else 0, i, AnInstruction)
    ensures Previous(log, start, i) == if r.Some? then Some(StepOf(log[r.value])) else None
  {
    StepsGap(log, start, if r.Some? then r.value + 1 else 0, i);
  }

  lemma PreviousInRange(functions: seq<Function>, log: Log, start: nat, i: nat)
    requires Linked(functions, log) && start < i <= |log| && log[start].FunctionStart?
    ensures log[start].fn < |functions|
    ensures Previous(log, start, i).Some? ==> Previous(log, start, i).value.index < |functions[log[start].fn].blockOf|
  {
    hide Linked, Steps;
    StepsExecutable(functions, log, start, i);
  }

  lemma ErrorsSinceStep(log: Log, start: nat, v: nat, j: nat, i: nat)
    requires v < j < i <= |log| && Misses(log, start, v + 1, i, AnInstruction)
    ensures ErrorsSince(log, start, j + 1) ==
            ErrorsSince(log, start, j) + if log[j].RuntimeError? && log[j].topLevel then [j] else []
  {
  }

  // ---------------------------------------------------------------- the allocas

  /** The allocas of a frame after one more of its own events. */
  lemma AllocasNext(functions: seq<Function>, log: Log, start: nat, i: nat)
    requires Linked(functions, log) && i < |log| && Local(log, start, i)
    ensures log[i].Alloca? ==> IsAlloca(log, i)
    ensures log[i].Alloca? ==>
              AllocasAt(functions, log, start, i + 1) == AllocasAt(functions, log, start, i) + [AllocaAt(log, i)]
    ensures log[i].StackRestore? ==> AllocasAt(functions, log, start, i + 1) == Restored(log, i + 1)
    ensures !log[i].Alloca? && !log[i].StackRestore? ==>
              AllocasAt(functions, log, start, i + 1) == AllocasAt(functions, log, start, i)
  {
    assert LinkedAt(functions, log, i);
  }

  /** Where the search for an earlier restore leaves off. */
  lemma FirstAllocas(functions: seq<Function>, log: Log, start: nat, restore: Option<nat>, i: nat)
    requires Linked(functions, log) && start < i <= |log| && log[start].FunctionStart?
    requires restore.Some? ==> restore.value < i && Local(log, start, restore.value) && log[restore.value].StackRestore?
    ensures restore.Some? ==> AllocasAt(functions, log, start, restore.value + 1) == Restored(log, restore.value + 1)
    ensures restore.Some? ==> Local(log, start, restore.value + 1)
    ensures restore.None? ==> AllocasAt(functions, log, start, start + 1) == [] && Local(log, start, start + 1)
  {
    hide Linked, AllocasAt, Restored, AllocaAt;
    if restore.Some? {
      AllocasNext(functions, log, start, restore.value);
      LocalNext(functions, log, start, restore.value);
    } else {
      NothingBefore(functions, log, start, start + 1);
    }
  }

  lemma NoEndBetween(functions: seq<Function>, log: Log, start: nat, j: nat, i: nat)
    requires Linked(functions, log) && j < i <= |log| && Local(log, start, j) && Local(log, start, i)
    ensures !log[j].FunctionEnd?
  {
    if log[j].FunctionEnd? {
      assert LinkedAt(functions, log, j);
      assert Stack(log, j + 1) == Stack(log, j)[..|Stack(log, j)| - 1];
      NeverAgain(functions, log, start, j + 1, i);
    }
  }

  lemma {:induction false} NoRestore(log: Log, start: nat, n: nat, i: nat)
    requires n <= i <= |log| && Misses(log, start, 0, i, ARestore)
    ensures !HasRestore(log, start, n)
  {
    if n > 0 {
      NoRestore(log, start, n - 1, i);
      assert ARestore(log[n - 1]) ==> InFunction(log[n - 1]);
    }
  }

  lemma NotARestore(log: Log, start: nat, low: nat, j: nat, i: nat)
    requires low <= j < i <= |log| && Misses(log, start, low, i, ARestore)
    requires Local(log, start, j) && InFunction(log[j])
    ensures !log[j].StackRestore?
  {
    assert !ARestore(log[j]);
  }

  /** Once closed, an invocation is never open again. */
  lemma {:induction false} NeverAgain(functions: seq<Function>, log: Log, start: nat, n: nat, m: nat)
    requires start < n <= m <= |log| && start !in Stack(log, n)
    ensures start !in Stack(log, m)
    decreases m
  {
    if n < m {
      NeverAgain(functions, log, start, n, m - 1);
    }
  }

  lemma AllocasSkipChild(functions: seq<Function>, log: Log, start: nat, c: nat, n: nat)
    requires Linked(functions, log) && start < c < n <= |log| && log[start].FunctionStart? && log[c].FunctionStart?
    requires Local(log, start, c) && Local(log, start, n)
    ensures log[c].endAt.Some? && c < log[c].endAt.value < n && Local(log, start, log[c].endAt.value + 1)
    ensures AllocasAt(functions, log, start, log[c].endAt.value + 1) == AllocasAt(functions, log, start, c)
  {
    hide Linked, Local, AllocasAt, Stack;
    SkipChild(functions, log, start, c, n);
    FrameAllocas(functions, log, start, c);
    FrameAllocas(functions, log, start, log[c].endAt.value + 1);
  }

  lemma FrameAllocas(functions: seq<Function>, log: Log, start: nat, n: nat)
    requires Linked(functions, log) && start < n <= |log| && log[start].FunctionStart?
    ensures FrameAt(functions, log, start, n).allocas == AllocasAt(functions, log, start, n)
  {
  }

  // ---------------------------------------------------------------- areas in two parts

  lemma {:induction false} RemoveAllParts(m: MemoryModel.Memory, a: seq<Area>, b: seq<Area>)
    requires m.Valid() && CanRemoveAll(m, a + b)
    ensures CanRemoveAll(m, a) && CanRemoveAll(RemoveAll(m, a), b)
    ensures RemoveAll(RemoveAll(m, a), b) == RemoveAll(m, a + b)
    decreases a
  {
    if a == [] {
      assert a + b == b;
    } else {
      assert (a + b)[1..] == a[1..] + b;
      RemoveAllParts(MemoryModel.Do(m, MemoryModel.Remove(a[0].address, a[0].size)), a[1..], b);
    }
  }

  lemma {:induction false} UnremoveAllParts(m: MemoryModel.Memory, a: seq<Area>, b: seq<Area>)
    requires m.Valid() && CanUnremoveAll(m, a + b)
    ensures CanUnremoveAll(m, b) && CanUnremoveAll(UnremoveAll(m, b), a)
    ensures UnremoveAll(UnremoveAll(m, b), a) == UnremoveAll(m, a + b)
    decreases |b|
  {
    if b == [] {
      assert a + b == a;
    } else {
      var last := b[|b| - 1];
      assert (a + b)[..|a + b| - 1] == a + b[..|b| - 1];
      UnremoveAllParts(MemoryModel.Undo(m, MemoryModel.Remove(last.address, last.size)), a, b[..|b| - 1]);
    }
  }

  // ---------------------------------------------------------------- what an event changes

  lemma CanAddTo(functions: seq<Function>, log: Log, frames: seq<Frame>, i: nat)
    requires RestoresRefer(log) && i < |log| && log[i].IsFunctionLevel() && CanAddFrames(functions, log, frames, i)
    ensures frames != [] && CanAddToFrame(functions, log, frames[|frames| - 1], i)
  {
  }

  lemma CanRemoveTop(functions: seq<Function>, log: Log, frames: seq<Frame>, i: nat)
    requires i < |log| && log[i].IsFunctionLevel() && CanRemoveFrames(functions, log, frames, i)
    ensures frames != [] && CanRemoveFromFrame(functions, log, frames[|frames| - 1], i)
  {
  }

  /** What an event of an invocation changes beyond its frame, from the allocas before and after it. */
  function LocalDelta(e: Event, pre: seq<AllocaState>, post: seq<AllocaState>): Change
    requires e.Alloca? ==> post != []
  {
    if e.StackRestore? then Deallocate(AllocaAreas(pre[CommonPrefix(post, pre)..]))
    else if e.Alloca? then Allocate(AreaOf(post[|post| - 1]))
    else if e.ByValRegionAdd? then Allocate(Area(e.address, e.size))
    else Nothing
  }

  /** The change made by an event of the innermost invocation. */
  lemma LocalChange(functions: seq<Function>, log: Log, frames: seq<Frame>, t: int, i: nat)
    requires Linked(functions, log) && i < |log| && log[i].IsFunctionLevel() && CanAddFrames(functions, log, frames, i)
    ensures LinkedAt(functions, log, i) && RestoresRefer(log) && frames != []
    ensures var pre, after := frames[|frames| - 1].allocas, FramesAfter(functions, log, frames, t, i);
            && |after| == |frames|
            && var post := after[|after| - 1].allocas;
               && (log[i].Alloca? ==> post != [])
               && ForwardChange(log, frames, i) == LocalDelta(log[i], pre, post)
  {
    hide Restored, AllocaAt, Advance, StepOf, AllocaAreas, Stack, Steps;
    assert LinkedAt(functions, log, i);
  }

  lemma AddLocalIs(functions: seq<Function>, log: Log, st: State, i: nat)
    requires Linked(functions, log) && i < |log| && log[i].IsFunctionLevel()
    requires st.process.Valid() && CanAdd(functions, log, st, i)
    ensures CanAddFrames(functions, log, st.callStack, i) && LinkedAt(functions, log, i)
    ensures CanApply(st.process, ForwardChange(log, st.callStack, i))
    ensures AddEvent(functions, log, st, i) ==
            State(FramesAfter(functions, log, st.callStack, st.threadTime, i),
                  st.threadTime + (if log[i].IsInstruction() || log[i].NewThreadTime? then 1 else 0),
                  st.view, st.time, Apply(st.process, ForwardChange(log, st.callStack, i)))
  {
    hide Linked, ForwardChange, FramesAfter, CanAddFrames, Apply, CanApply, Stack, Steps;
    CanAddParts(functions, log, st, i);
  }

  lemma AddStartIs(functions: seq<Function>, log: Log, st: State, i: nat)
    requires Linked(functions, log) && i < |log| && log[i].FunctionStart?
    requires st.process.Valid() && CanAdd(functions, log, st, i)
    ensures log[i].fn < |functions| && functions[log[i].fn].Valid()
    ensures AddEvent(functions, log, st, i) ==
            st.(callStack := st.callStack + [NewFrame(i, log[i].fn)], threadTime := log[i].entered)
  {
    hide Stack, Steps;
    assert LinkedAt(functions, log, i);
  }

  lemma AddEndIs(functions: seq<Function>, log: Log, st: State, i: nat)
    requires Linked(functions, log) && i < |log| && log[i].FunctionEnd?
    requires st.process.Valid() && CanAdd(functions, log, st, i)
    ensures st.callStack != []
    ensures log[i].functionStart < |log| && log[log[i].functionStart].FunctionStart?
    ensures var n := |st.callStack| - 1;
            var change := Deallocate(FrameAreas(st.callStack[n]));
            && CanApply(st.process, change)
            && AddEvent(functions, log, st, i) ==
               st.(callStack := st.callStack[..n], threadTime := log[log[i].functionStart].exited,
                   process := Apply(st.process, change))
  {
    hide Stack, Steps, CanRemoveAll, RemoveAll, FrameAreas;
    assert LinkedAt(functions, log, i);
  }

  predicate IsShared(e: Event) {
    !e.IsFunctionLevel() && !e.FunctionStart? && !e.FunctionEnd?
  }

  lemma AddSharedIs(functions: seq<Function>, log: Log, st: State, i: nat)
    requires Linked(functions, log) && i < |log| && IsShared(log[i])
    requires st.process.Valid() && CanAdd(functions, log, st, i)
    ensures log[i].Malloc? ==> LastPtr(log, i).Some?
    ensures CanApply(st.process, ChangeOf(log, i))
    ensures AddEvent(functions, log, st, i) ==
            st.(view := if log[i].ProcessTime().Some? then log[i].ProcessTime().value else st.view,
                time := if log[i].IsTimedChange() then log[i].time else st.time,
                process := Apply(st.process, ChangeOf(log, i)))
  {
    hide Stack, Steps, CanApply, Apply, ChangeOf, Linked;
    CanAddParts(functions, log, st, i);
  }

  // ---------------------------------------------------------------- what removing an event changes

  /** The change to revert for an event of the innermost invocation. */
  lemma LocalChangeBack(functions: seq<Function>, log: Log, frames: seq<Frame>, t: int, i: nat)
    requires Linked(functions, log) && i < |log| && log[i].IsFunctionLevel()
    requires CanRemoveFrames(functions, log, frames, i)
    ensures frames != []
    ensures log[i].Alloca? ==> frames[|frames| - 1].allocas != []
    ensures var post, before := frames[|frames| - 1].allocas, FramesBefore(functions, log, frames, t, i);
            && |before| == |frames|
            && var pre := before[|before| - 1].allocas;
               BackwardChange(functions, log, frames, i) == LocalDelta(log[i], pre, post)
  {
    hide Linked, AllocasAt, Retreat, CanRetreat, StepOf, AllocaAreas, Stack, Steps, Previous, ErrorsSince, HasRestore,
      AllocaAt, RemoveByVal;
  }

  lemma RemoveLocalIs(functions: seq<Function>, log: Log, st: State, i: nat)
    requires Linked(functions, log) && i < |log| && log[i].IsFunctionLevel()
    requires st.process.Valid() && CanRemove(functions, log, st, i)
    ensures CanRemoveFrames(functions, log, st.callStack, i)
    ensures st.callStack != [] && (log[i].Alloca? ==> st.callStack[|st.callStack| - 1].allocas != [])
    ensures CanRevert(st.process, BackwardChange(functions, log, st.callStack, i))
    ensures RemoveEvent(functions, log, st, i) ==
            State(FramesBefore(functions, log, st.callStack, st.threadTime, i),
                  st.threadTime - (if log[i].IsInstruction() || log[i].NewThreadTime? then 1 else 0),
                  st.view, st.time, Revert(st.process, BackwardChange(functions, log, st.callStack, i)))
  {
    hide Linked, BackwardChange, FramesBefore, Revert, CanRevert, Stack, Steps, CanRetreat, Previous, HasRestore;
  }

  lemma RemoveStartIs(functions: seq<Function>, log: Log, st: State, i: nat)
    requires Linked(functions, log) && i < |log| && log[i].FunctionStart?
    requires st.process.Valid() && CanRemove(functions, log, st, i)
    ensures st.callStack != [] && st.callStack[|st.callStack| - 1].fn == log[i].fn
    ensures RemoveEvent(functions, log, st, i) ==
            st.(callStack := st.callStack[..|st.callStack| - 1], threadTime := log[i].entered - 1)
  {
    hide Linked, Stack, Steps;
  }

  lemma RebuiltAreas(functions: seq<Function>, log: Log, start: nat, n: nat, t: int)
    requires Linked(functions, log) && start < n <= |log| && log[start].FunctionStart?
    ensures FrameAreas(RebuiltAt(functions, log, start, n, t)) == FrameAreas(FrameAt(functions, log, start, n))
  {
    hide Linked, FrameAt, ByValAreas, AllocaAreas;
  }

  lemma RemoveEndIs(functions: seq<Function>, log: Log, st: State, i: nat)
    requires Linked(functions, log) && i < |log| && log[i].FunctionEnd?
    requires st.process.Valid() && CanRemove(functions, log, st, i)
    ensures log[i].functionStart < i && log[log[i].functionStart].FunctionStart?
    ensures var f := RebuiltAt(functions, log, log[i].functionStart, i, st.threadTime);
            && CanRevert(st.process, Deallocate(FrameAreas(f)))
            && RemoveEvent(functions, log, st, i) ==
               st.(callStack := st.callStack + [f], threadTime := log[log[i].functionStart].exited - 1,
                   process := Revert(st.process, Deallocate(FrameAreas(f))))
  {
    hide Linked, Stack, Steps, FrameAt, Revert, CanRevert, FrameAreas;
    EndIsLocal(functions, log, i);
    RebuiltAreas(functions, log, log[i].functionStart, i, st.threadTime);
  }

  lemma RemoveSharedIs(functions: seq<Function>, log: Log, st: State, i: nat)
    requires Linked(functions, log) && i < |log| && IsShared(log[i])
    requires st.process.Valid() && CanRemove(functions, log, st, i)
    ensures log[i].Malloc? ==> LastPtr(log, i).Some?
    ensures CanRevert(st.process, ChangeOf(log, i))
    ensures RemoveEvent(functions, log, st, i) ==
            st.(view := if log[i].ProcessTime().Some? then ViewAt(log, i) else st.view,
                time := if log[i].IsTimedChange() then log[i].time - 1 else st.time,
                process := Revert(st.process, ChangeOf(log, i)))
  {
    hide Stack, Steps, CanRevert, Revert, ChangeOf, ViewAt;
    assert LinkedAt(functions, log, i);
  }

  /** After a walk, the innermost frame is that of the invocation whose event comes before. */
  lemma TopIsLocal(functions: seq<Function>, log: Log, frames: seq<Frame>, i: nat)
    requires Linked(functions, log) && i < |log| && SameFrames(functions, log, frames, i + 1)
    requires log[i].IsFunctionLevel()
    ensures frames != [] && Local(log, frames[|frames| - 1].start, i)
  {
    hide SameFrame, Steps;
    assert LinkedAt(functions, log, i);
    SameStack(log, i);
    var top := |frames| - 1;
    FrameIn(functions, log, frames, i + 1, top);
    SameStart(functions, log, frames[top], Stack(log, i + 1)[top], i + 1);
  }
}
