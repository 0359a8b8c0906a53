/** The state of one replayed thread, moved over its log by adding the next event or removing the
    previous one. Adding is proved to be Replay.AddEvent, and removing, which searches and re-runs the
    log, to be Replay.RemoveEvent. */
module ThreadState {
  import opened Common
  import opened Errors
  import opened FrameModel
  import P = ProcessModel
  import opened TraceLog
  import opened Replay
  import opened Walk
  import opened AnyWalk
  import opened TraceSearch
  import opened TraceRebuild
  import opened FunctionState
  import opened ProcessState

  class ThreadState {
    const functions: seq<Function>
    const log: Log
    const parent: ProcessState
    var nextEvent: nat
    var processTime: nat
    var threadTime: int
    var callStack: seq<FunctionState>
    /** The process that the log starts from. */
    ghost const initial: P.Process
    /** The frames that the call stack represents, and the objects that hold them. */
    ghost var frames: seq<Frame>
    ghost var repr: set<object>

    ghost predicate FrameValid(f: FunctionState)
      reads f
    {
      && f.Valid() && f.fn < |functions| && f.lookup == functions[f.fn]
      && f.start < |log| && log[f.start].FunctionStart? && log[f.start].fn == f.fn
    }

    ghost predicate Valid()
      reads this, repr, parent, parent.memory, parent.memory.repr
    {
      && WellFormed(functions, log, initial)
      && parent.Valid()
      && this !in repr && this !in parent.Repr() && repr !! parent.Repr() && parent.memory in parent.Repr()
      && |frames| == |callStack|
      && (forall j | 0 <= j < |callStack| ::
            callStack[j] in repr && FrameValid(callStack[j]) && callStack[j].View() == frames[j])
      && (forall i, j | 0 <= i < j < |callStack| :: callStack[i] != callStack[j])
    }

    /** What most methods need of Valid. */
    lemma ValidParts()
      requires Valid()
      ensures WellFormed(functions, log, initial) && parent.Valid()
      ensures this !in repr && this !in parent.Repr() && repr !! parent.Repr() && parent.memory in parent.Repr()
      ensures |frames| == |callStack|
      ensures callStack != [] ==>
                var top := callStack[|callStack| - 1];
                top in repr && FrameValid(top) && top.View() == frames[|callStack| - 1]
    {
      hide WellFormed, ProcessState.Valid, FrameValid, FunctionState.View;
    }

    ghost function View(): State
      reads this, parent, parent.memory
    {
      State(frames, threadTime, processTime, parent.processTime, parent.View())
    }

    constructor (withFunctions: seq<Function>, withLog: Log, withParent: ProcessState)
      requires withParent.Valid() && withParent.processTime == 0
      requires WellFormed(withFunctions, withLog, withParent.View())
      ensures Valid() && nextEvent == 0 && parent == withParent && functions == withFunctions && log == withLog
      ensures initial == withParent.View() && View() == State([], 0, 0, 0, initial)
    {
      functions, log, parent, initial := withFunctions, withLog, withParent, withParent.View();
      nextEvent, processTime, threadTime := 0, 0, 0;
      callStack, frames, repr := [], [], {};
    }

    /** The state is one that a walk over the log can reach. */
    ghost predicate Settled()
      reads this, repr, parent, parent.memory, parent.memory.repr
    {
      && Valid()
      && nextEvent <= |log|
      && Replayable(functions, log, initial, nextEvent)
      && Walked(functions, log, initial, View(), nextEvent)
    }

    lemma StartsSettled()
      requires Valid() && nextEvent == 0 && View() == State([], 0, 0, 0, initial)
      ensures Settled()
    {
      hide WellFormed, Walked, ProcessState.Valid, FrameValid;
      StartsWalked(functions, log, initial);
    }

    // -------------------------------------------------------------- one frame

    /** Alloca, within its own frame: the address is the result of the last pointer instruction. */
    method ReaddAlloca(f: FunctionState, i: nat)
      requires FrameValid(f) && IsAlloca(log, i)
      modifies f
      ensures FrameValid(f) && f.View() == old(f.View()).(allocas := old(f.allocas) + [AllocaAt(log, i)])
    {
      var r := RFindInstructionWithPtr(log, i);
      var p := log[r.value];
      f.allocas := f.allocas + [AllocaState(p.index, p.value.address, log[i].elementSize, log[i].elementCount)];
    }

    method ReaddStackRestore(f: FunctionState, i: nat)
      requires FrameValid(f) && RestoresRefer(log) && i < |log|
      modifies f
      ensures FrameValid(f) && f.View() == old(f.View()).(allocas := Restored(log, i + 1))
    {
      f.allocas := [];
      var n := i + 1;
      while n < |log| && log[n].StackRestoreAlloca?
        invariant i < n <= |log| && FrameValid(f)
        invariant f.View() == old(f.View()).(allocas := f.allocas)
        invariant f.allocas + Restored(log, n) == Restored(log, i + 1)
      {
        ReaddAlloca(f, log[n].alloca);
        n := n + 1;
      }
    }

    method AddInstruction(f: FunctionState, i: nat)
      requires FrameValid(f) && i < |log| && log[i].IsInstruction() && log[i].index < |f.lookup.blockOf|
      requires Settable(f.lookup, f.Blocks(), StepOf(log[i]))
      modifies f
      ensures FrameValid(f)
      ensures f.View() == old(f.View()).(blocks := Advance(f.lookup, old(f.Blocks()), StepOf(log[i])))
    {
      hide FunctionState.Valid, Forwarding;
      var index := log[i].index;
      f.ForwardingToInstruction(index);
      if log[i].InstructionWithValue? {
        f.SetValue(index, log[i].value);
      }
      f.SetActiveInstruction(index, !log[i].PreInstruction?);
    }

    /** An error is added with the active instruction and the thread time of now. */
    method AddRuntimeError(f: FunctionState, i: nat)
      requires FrameValid(f)
      modifies f`runtimeErrors
      ensures FrameValid(f)
      ensures f.View() == old(f.View()).(errors := old(f.runtimeErrors) +
                [ErrorState(i, old(f.activeInstruction), threadTime)])
    {
      f.runtimeErrors := f.runtimeErrors + [ErrorState(i, f.activeInstruction, threadTime)];
    }

    /** An event of an invocation, added to its frame: used going forward, and to rebuild a frame. */
    method AddToFrame(f: FunctionState, i: nat)
      requires FrameValid(f) && RestoresRefer(log) && i < |log| && log[i].IsFunctionLevel()
      requires CanAddToFrame(functions, log, f.View(), i)
      modifies f
      ensures FrameValid(f) && f.View() == FrameAfter(functions, log, old(f.View()), threadTime, i)
    {
      hide Advance, Restored, AllocaAt, IsAlloca;
      if log[i].IsInstruction() {
        AddInstruction(f, i);
      } else if log[i].Alloca? {
        ReaddAlloca(f, i);
      } else if log[i].StackRestore? {
        ReaddStackRestore(f, i);
      } else if log[i].ByValRegionAdd? {
        f.paramByVals := f.paramByVals + [ByVal(log[i].argument, log[i].address, log[i].size)];
      } else if log[i].RuntimeError? && log[i].topLevel {
        AddRuntimeError(f, i);
      }
    }

    // -------------------------------------------------------------- one frame, backward

    /** The runtime errors recorded from the previous instruction on are added, whether or not they
        are still known. */
    method AddErrorsSince(f: FunctionState, v: nat, i: nat)
      requires FrameValid(f) && v < i <= |log| && log[v].IsInstruction() && Local(log, f.start, v)
      requires Misses(log, f.start, v + 1, i, AnInstruction)
      modifies f
      ensures FrameValid(f)
      ensures f.View() == old(f.View()).(errors := old(f.runtimeErrors) +
                Stamped(ErrorsSince(log, f.start, i), old(f.activeInstruction), threadTime))
    {
      hide Encodes, Local, Misses;
      var j := v;
      while j < i
        invariant v <= j <= i && FrameValid(f)
        invariant f.View() == old(f.View()).(errors := f.runtimeErrors)
        invariant f.runtimeErrors ==
                  old(f.runtimeErrors) +
                  if j == v then [] else Stamped(ErrorsSince(log, f.start, j), f.activeInstruction, threadTime)
        invariant f.activeInstruction == old(f.activeInstruction)
      {
        if log[j].RuntimeError? && log[j].topLevel {
          AddRuntimeError(f, j);
        }
        if j > v {
          ErrorsSinceStep(log, f.start, v, j, i);
        }
        j := j + 1;
      }
    }

    method MakePreviousInstructionActive(f: FunctionState, i: nat)
      requires FrameValid(f) && Linked(functions, log) && f.start < i < |log| && Local(log, f.start, i)
      requires CanRetreat(f.lookup, f.Blocks(), Previous(log, f.start, i))
      modifies f
      ensures FrameValid(f)
      ensures var previous := Previous(log, f.start, i);
              f.View() == old(f.View()).(
                blocks := Retreat(f.lookup, old(f.Blocks()), previous),
                errors := old(f.runtimeErrors) + ErrorsAgain(log, f.start, i, threadTime))
    {
      hide FunctionState.Valid, Linked, Local, Misses, Previous, ErrorsSince;
      var r := RFindInFunction(functions, log, f.start, i, AnInstruction);
      FoundPrevious(log, f.start, r, i);
      if r.None? {
        f.ClearActiveInstruction();
        return;
      }
      var e := log[r.value];
      PreviousInRange(functions, log, f.start, i);
      f.RewindingToInstruction(e.index);
      f.SetActiveInstruction(e.index, !e.PreInstruction?);
      AddErrorsSince(f, r.value, i);
    }

    /** The allocas added from the given restore on, or from the start, without those of child calls. */
    method ReaddAllocas(f: FunctionState, restore: Option<nat>, i: nat)
      requires FrameValid(f) && Linked(functions, log) && f.start < i < |log| && Local(log, f.start, i)
      requires Misses(log, f.start, if restore.Some? then restore.value + 1 else 0, i, ARestore)
      requires restore.Some? ==> f.start < restore.value < i && Local(log, f.start, restore.value)
      requires restore.Some? ==> log[restore.value].StackRestore? && f.allocas == Restored(log, restore.value + 1)
      requires restore.None? ==> log[f.start].startAt == Some(f.start) && f.allocas == []
      modifies f
      ensures FrameValid(f)
      ensures f.View() == old(f.View()).(allocas := AllocasAt(functions, log, f.start, i))
    {
      hide FunctionState.Valid, Linked, Local, Misses, Stack, AllocasAt, Restored, AllocaAt, IsAlloca;
      var it := if restore.Some? then restore.value + 1 else log[f.start].startAt.value + 1;
      FirstAllocas(functions, log, f.start, restore, i);
      while it != i
        invariant f.start < it <= i && Local(log, f.start, it) && FrameValid(f)
        invariant restore.Some? ==> restore.value < it
        invariant f.View() == old(f.View()).(allocas := AllocasAt(functions, log, f.start, it))
        decreases i - it
      {
        if log[it].FunctionStart? {
          AllocasSkipChild(functions, log, f.start, it, i);
          it := log[it].endAt.value + 1;
        } else if log[it].FunctionEnd? {
          NoEndBetween(functions, log, f.start, it, i);
          break;
        } else {
          NotARestore(log, f.start, if restore.Some? then restore.value + 1 else 0, it, i);
          AllocasNext(functions, log, f.start, it);
          LocalNext(functions, log, f.start, it);
          if log[it].Alloca? {
            ReaddAlloca(f, it);
          }
          it := it + 1;
        }
      }
    }

    /** The frame before a restore: the allocas of the restore before it, or none, and all since. */
    method RemoveStackRestore(f: FunctionState, i: nat)
      requires FrameValid(f) && Linked(functions, log) && f.start < i < |log| && Local(log, f.start, i)
      requires Restartable(log, f.start, i)
      modifies f
      ensures FrameValid(f)
      ensures f.View() == old(f.View()).(allocas := AllocasAt(functions, log, f.start, i))
    {
      hide Encodes, Linked, Misses, Stack, AllocasAt, Restored, HasRestore;
      f.allocas := [];
      var r := RFindInFunction(functions, log, f.start, i, ARestore);
      if r.Some? {
        LocalIsAfter(log, f.start, r.value);
        LinkedRefers(functions, log);
        ReaddStackRestore(f, r.value);
      } else {
        NoRestore(log, f.start, i, i);
      }
      ReaddAllocas(f, r, i);
    }

    /** An event of an invocation, removed from its frame. */
    method RemoveFromFrame(f: FunctionState, i: nat)
      requires FrameValid(f) && Linked(functions, log) && f.start < i < |log| && Local(log, f.start, i)
      requires log[i].IsFunctionLevel() && CanRemoveFromFrame(functions, log, f.View(), i)
      modifies f
      ensures FrameValid(f) && f.View() == FrameBefore(functions, log, old(f.View()), threadTime, i)
    {
      hide Encodes, Linked, Local, AllocasAt, Retreat, CanRetreat, Previous, ErrorsSince, HasRestore, RemoveByVal;
      if log[i].IsInstruction() {
        MakePreviousInstructionActive(f, i);
      } else if log[i].Alloca? {
        f.allocas := f.allocas[..|f.allocas| - 1];
      } else if log[i].StackRestore? {
        RemoveStackRestore(f, i);
      } else if log[i].ByValRegionAdd? {
        f.RemoveByValArea(log[i].address);
      } else if log[i].RuntimeError? && log[i].topLevel {
        f.runtimeErrors := f.runtimeErrors[..|f.runtimeErrors| - 1];
      }
    }

    // -------------------------------------------------------------- the innermost frame

    /** Only the object of the innermost frame has changed. */
    twostate lemma TopChanged()
      requires old(Valid()) && callStack == old(callStack) && repr == old(repr) && callStack != []
      requires var top := callStack[|callStack| - 1];
               && FrameValid(top)
               && frames == old(frames)[..|callStack| - 1] + [top.View()]
               && unchanged(repr - {top})
      requires parent.Valid() && this !in parent.Repr() && repr !! parent.Repr() && parent.memory in parent.Repr()
      ensures Valid()
    {
      hide WellFormed, FunctionState.Valid, FunctionState.View, ProcessState.Valid, ProcessState.Repr;
      var n := |callStack| - 1;
      forall j | 0 <= j < n ensures FrameValid(callStack[j]) && callStack[j].View() == frames[j] {
        assert callStack[j] in repr - {callStack[n]};
      }
    }

    method AddLocalFrame(i: nat)
      requires Valid() && i < |log| && log[i].IsFunctionLevel() && CanAddFrames(functions, log, frames, i)
      modifies this`frames, repr
      ensures Valid() && frames == FramesAfter(functions, log, old(frames), threadTime, i)
    {
      hide Valid, WellFormed, Linked, CanAddToFrame, FrameAfter, FunctionState.Valid, FunctionState.View,
        ProcessState.Valid, FramesAfter, CanAddFrames;
      ValidParts();
      WellFormedLinked();
      CanAddTo(functions, log, frames, i);
      var f := callStack[|callStack| - 1];
      FramesAfterLocal(functions, log, frames, threadTime, i);
      AddToFrame(f, i);
      frames := frames[..|frames| - 1] + [f.View()];
      TopChanged();
    }

    lemma WellFormedLinked()
      requires WellFormed(functions, log, initial)
      ensures Linked(functions, log) && RestoresRefer(log)
      ensures initial.Valid() && Replayable(functions, log, initial, |log|)
      ensures Rewindable(log) && Readdable(functions, log)
    {
    }

    /** Only the process has changed. */
    twostate lemma ParentChanged()
      requires old(Valid()) && parent.Valid() && fresh(parent.Repr() - old(parent.Repr()))
      requires repr == old(repr) && callStack == old(callStack) && frames == old(frames) && unchanged(old(repr))
      ensures Valid()
    {
      hide WellFormed, FunctionState.Valid, FunctionState.View, ProcessState.Valid, ProcessState.Repr;
    }

    /** Push a frame that no other object knows of. */
    method PushFrame(f: FunctionState, time: int)
      requires Valid() && FrameValid(f) && f !in repr && f !in parent.Repr()
      modifies this`callStack, this`frames, this`repr, this`threadTime
      ensures Valid() && View() == old(View()).(callStack := old(frames) + [f.View()], threadTime := time)
      ensures repr == old(repr) + {f}
    {
      hide WellFormed, FunctionState.Valid, FunctionState.View, ProcessState.Valid;
      callStack, frames, repr := callStack + [f], frames + [f.View()], repr + {f};
      threadTime := time;
      forall j | 0 <= j < |old(callStack)| ensures FrameValid(callStack[j]) && callStack[j].View() == frames[j] {
        assert callStack[j] == old(callStack)[j];
      }
    }

    /** The innermost frame has been popped, and the process may have changed. */
    twostate lemma FramePopped()
      requires old(Valid()) && parent.Valid() && fresh(parent.Repr() - old(parent.Repr()))
      requires unchanged(old(repr)) && repr == old(repr) && old(callStack) != []
      requires callStack == old(callStack[..|callStack| - 1]) && frames == old(frames[..|callStack| - 1])
      ensures Valid()
    {
      hide WellFormed, FunctionState.Valid, FunctionState.View, ProcessState.Valid, ProcessState.Repr;
      forall j | 0 <= j < |callStack| ensures FrameValid(callStack[j]) && callStack[j].View() == frames[j] {
        assert old(callStack)[j] in old(repr);
      }
    }

    method ApplyLocal(i: nat, before: seq<AllocaState>, after: seq<AllocaState>)
      requires parent.Valid() && i < |log| && (log[i].Alloca? ==> after != [])
      requires P.CanApply(parent.View(), LocalDelta(log[i], before, after))
      modifies parent.Repr()
      ensures parent.Valid() && parent.View() == P.Apply(old(parent.View()), LocalDelta(log[i], before, after))
      ensures fresh(parent.Repr() - old(parent.Repr())) && parent.processTime == old(parent.processTime)
    {
      hide AllocaAreas, ProcessState.Valid, CommonPrefix;
      if log[i].StackRestore? {
        parent.RemoveAreas(AllocaAreas(before[CommonPrefix(after, before)..]));
      } else if log[i].Alloca? {
        var a := after[|after| - 1];
        parent.AddArea(a.address, a.Size());
      } else if log[i].ByValRegionAdd? {
        parent.AddArea(log[i].address, log[i].size);
      }
    }

    method AddLocal(i: nat)
      requires Valid() && i < |log| && log[i].IsFunctionLevel() && CanAdd(functions, log, View(), i)
      modifies this`frames, this`threadTime, repr, parent.Repr()
      ensures Valid() && View() == AddEvent(functions, log, old(View()), i)
      ensures fresh(parent.Repr() - old(parent.Repr()))
    {
      hide Valid, WellFormed, Linked, CanAdd, AddEvent, CanAddFrames, FramesAfter, ForwardChange, P.Apply, P.CanApply,
        LocalDelta, FunctionState.Valid, FunctionState.Blocks, ProcessState.Valid, FrameValid;
      ValidParts();
      WellFormedLinked();
      AddLocalIs(functions, log, View(), i);
      LocalChange(functions, log, frames, threadTime, i);
      var f := callStack[|callStack| - 1];
      var before := f.allocas;
      AddLocalFrame(i);
      ValidParts();
      label Framed:
      ApplyLocal(i, before, f.allocas);
      if log[i].IsInstruction() || log[i].NewThreadTime? {
        threadTime := threadTime + 1;
      }
      ParentChanged@Framed();
    }

    // -------------------------------------------------------------- calls

    method AddFunctionStart(i: nat)
      requires Valid() && i < |log| && log[i].FunctionStart? && CanAdd(functions, log, View(), i)
      modifies this`callStack, this`frames, this`repr, this`threadTime
      ensures Valid() && View() == AddEvent(functions, log, old(View()), i) && fresh(repr - old(repr))
    {
      hide Valid, WellFormed, Linked, CanAdd, AddEvent, ProcessState.Valid;
      ValidParts();
      WellFormedLinked();
      AddStartIs(functions, log, View(), i);
      var f := new FunctionState(i, log[i].fn, functions[log[i].fn]);
      PushFrame(f, log[i].entered);
    }

    /** By-value areas are removed first, then the allocas, each in order. */
    method RemoveFrameAreas(f: FunctionState)
      requires parent.Valid() && f !in parent.Repr()
      requires P.CanApply(parent.View(), P.Deallocate(FrameAreas(f.View())))
      modifies parent.Repr()
      ensures parent.Valid() && parent.View() == P.Apply(old(parent.View()), P.Deallocate(FrameAreas(f.View())))
      ensures fresh(parent.Repr() - old(parent.Repr())) && parent.processTime == old(parent.processTime)
    {
      hide ProcessState.Valid, FunctionState.Blocks, AllocaAreas, ByValAreas;
      var byVals, allocas := ByValAreas(f.paramByVals), AllocaAreas(f.allocas);
      RemoveAllParts(parent.memory.view, byVals, allocas);
      parent.RemoveAreas(byVals);
      parent.RemoveAreas(allocas);
    }

    method AddFunctionEnd(i: nat)
      requires Valid() && i < |log| && log[i].FunctionEnd? && CanAdd(functions, log, View(), i)
      modifies this`callStack, this`frames, this`threadTime, parent.Repr()
      ensures Valid() && View() == AddEvent(functions, log, old(View()), i)
      ensures fresh(parent.Repr() - old(parent.Repr()))
    {
      hide Valid, WellFormed, Linked, CanAdd, AddEvent, ProcessState.Valid, FunctionState.Valid, FunctionState.View,
        FrameValid, FrameAreas, P.Apply, P.CanApply;
      ValidParts();
      WellFormedLinked();
      AddEndIs(functions, log, View(), i);
      var n := |callStack| - 1;
      RemoveFrameAreas(callStack[n]);
      callStack, frames := callStack[..n], frames[..n];
      threadTime := log[log[i].functionStart].exited;
      FramePopped();
    }

    // -------------------------------------------------------------- shared state

    /** The change of the process recorded by an event. */
    method ReadChange(i: nat) returns (c: P.Change)
      requires i < |log| && !log[i].Alloca? && (log[i].Malloc? ==> LastPtr(log, i).Some?)
      ensures c == ChangeOf(log, i) && (c.OnMemory? ==> c.op.Block? || c.op.Copy? || c.op.Clear?)
    {
      if log[i].Malloc? {
        var r := RFindInstructionWithPtr(log, i);
        return P.Malloc(log[r.value].value.address, log[i].size);
      }
      c := ChangeOf(log, i);
    }

    method AddShared(i: nat)
      requires Valid() && i < |log| && IsShared(log[i]) && CanAdd(functions, log, View(), i)
      modifies this`processTime, parent.Repr()
      ensures Valid() && View() == AddEvent(functions, log, old(View()), i)
      ensures fresh(parent.Repr() - old(parent.Repr()))
    {
      hide Valid, WellFormed, Linked, ChangeOf, CanAdd, AddEvent, ProcessState.Valid, FunctionState.Valid, FrameValid,
        P.CanApply, P.Apply;
      ValidParts();
      WellFormedLinked();
      AddSharedIs(functions, log, View(), i);
      var c := ReadChange(i);
      parent.Apply(c);
      if log[i].IsTimedChange() {
        parent.SetProcessTime(log[i].time);
      }
      if log[i].ProcessTime().Some? {
        processTime := log[i].ProcessTime().value;
      }
      ParentChanged();
    }

    // -------------------------------------------------------------- forward

    method AddEventAt(i: nat)
      requires Valid() && i < |log| && CanAdd(functions, log, View(), i)
      modifies this, repr, parent.Repr()
      ensures Valid() && View() == AddEvent(functions, log, old(View()), i) && nextEvent == old(nextEvent)
      ensures fresh(repr - old(repr)) && fresh(parent.Repr() - old(parent.Repr()))
    {
      hide WellFormed, CanAdd, AddEvent, FrameValid, ProcessState.Valid;
      if log[i].FunctionStart? {
        AddFunctionStart(i);
      } else if log[i].FunctionEnd? {
        AddFunctionEnd(i);
      } else if log[i].IsFunctionLevel() {
        AddLocal(i);
      } else {
        AddShared(i);
      }
    }

    /** Adding the next event never fails an assertion, and leaves a state that a walk can reach. */
    method AddNextEvent()
      requires Settled() && nextEvent < |log|
      modifies this, repr, parent.Repr()
      ensures Settled() && nextEvent == old(nextEvent) + 1
      ensures CanAdd(functions, log, old(View()), old(nextEvent))
      ensures View() == AddEvent(functions, log, old(View()), old(nextEvent))
      ensures fresh(repr - old(repr)) && fresh(parent.Repr() - old(parent.Repr()))
    {
      hide WellFormed, CanAdd, AddEvent, FrameValid, ProcessState.Valid, Walked, Replayable, ReaddableAt;
      WellFormedLinked();
      ReplayablePrefix(functions, log, initial, nextEvent + 1, |log|);
      StepForward(functions, log, initial, View(), nextEvent);
      AddEventAt(nextEvent);
      nextEvent := nextEvent + 1;
    }

    // -------------------------------------------------------------- backward

    method RemoveLocalFrame(i: nat)
      requires Valid() && i < |log| && log[i].IsFunctionLevel() && CanRemoveFrames(functions, log, frames, i)
      requires frames != [] && Local(log, frames[|frames| - 1].start, i)
      modifies this`frames, repr
      ensures Valid() && frames == FramesBefore(functions, log, old(frames), threadTime, i)
    {
      hide Valid, WellFormed, Linked, CanRemoveFromFrame, FrameBefore, FunctionState.Valid, FunctionState.Blocks,
        ProcessState.Valid, Local, FramesBefore, CanRemoveFrames;
      ValidParts();
      WellFormedLinked();
      CanRemoveTop(functions, log, frames, i);
      var f := callStack[|callStack| - 1];
      LocalIsAfter(log, f.start, i);
      FramesBeforeLocal(functions, log, frames, threadTime, i);
      RemoveFromFrame(f, i);
      frames := frames[..|frames| - 1] + [f.View()];
      TopChanged();
    }

    /** Areas are put back in reverse order, so that memory retrieves the right data. */
    method RevertLocal(i: nat, before: seq<AllocaState>, after: seq<AllocaState>)
      requires parent.Valid() && i < |log| && (log[i].Alloca? ==> after != [])
      requires P.CanRevert(parent.View(), LocalDelta(log[i], before, after))
      modifies parent.Repr()
      ensures parent.Valid() && parent.View() == P.Revert(old(parent.View()), LocalDelta(log[i], before, after))
      ensures fresh(parent.Repr() - old(parent.Repr())) && parent.processTime == old(parent.processTime)
    {
      hide AllocaAreas, ProcessState.Valid, CommonPrefix;
      if log[i].StackRestore? {
        parent.UnremoveAreas(AllocaAreas(before[CommonPrefix(after, before)..]));
      } else if log[i].Alloca? {
        var a := after[|after| - 1];
        parent.UnaddArea(a.address, a.Size());
      } else if log[i].ByValRegionAdd? {
        parent.UnaddArea(log[i].address, log[i].size);
      }
    }

    method RemoveLocal(i: nat)
      requires Valid() && i < |log| && log[i].IsFunctionLevel() && CanRemove(functions, log, View(), i)
      requires frames != [] && Local(log, frames[|frames| - 1].start, i)
      modifies this`frames, this`threadTime, repr, parent.Repr()
      ensures Valid() && View() == RemoveEvent(functions, log, old(View()), i)
      ensures fresh(parent.Repr() - old(parent.Repr()))
    {
      hide Valid, WellFormed, Linked, CanRemove, RemoveEvent, CanRemoveFrames, FramesBefore, BackwardChange, P.Revert,
        P.CanRevert, LocalDelta, FunctionState.Valid, FunctionState.Blocks, ProcessState.Valid, FrameValid, Local,
        Replays;
      ValidParts();
      WellFormedLinked();
      RemoveLocalIs(functions, log, View(), i);
      LocalChangeBack(functions, log, frames, threadTime, i);
      var f := callStack[|callStack| - 1];
      var after := f.allocas;
      RemoveLocalFrame(i);
      ValidParts();
      label Framed:
      RevertLocal(i, f.allocas, after);
      if log[i].IsInstruction() || log[i].NewThreadTime? {
        threadTime := threadTime - 1;
      }
      ParentChanged@Framed();
    }

    method RemoveFunctionStart(i: nat)
      requires Valid() && i < |log| && log[i].FunctionStart? && CanRemove(functions, log, View(), i)
      modifies this`callStack, this`frames, this`threadTime
      ensures Valid() && View() == RemoveEvent(functions, log, old(View()), i)
    {
      hide Valid, WellFormed, Linked, CanRemove, RemoveEvent, ProcessState.Valid, FunctionState.Valid, FrameValid;
      ValidParts();
      WellFormedLinked();
      RemoveStartIs(functions, log, View(), i);
      assert callStack[|callStack| - 1].fn == log[i].fn;
      callStack, frames := callStack[..|callStack| - 1], frames[..|frames| - 1];
      threadTime := log[i].entered - 1;
      FramePopped();
    }

    /** Re-run the events of an invocation up to its end, skipping those of the calls that it made. */
    method RebuildFrame(f: FunctionState, i: nat)
      requires WellFormed(functions, log, initial) && FrameValid(f) && i < |log| && log[i].FunctionEnd?
      requires log[i].functionStart == f.start && f.View() == NewFrame(f.start, f.fn)
      modifies f, this`threadTime
      ensures FrameValid(f) && f.start < i
      ensures f.View() == RebuiltAt(functions, log, f.start, i, old(threadTime))
    {
      hide WellFormed, FunctionState.Valid, FunctionState.Blocks, Local, FrameAt, RebuiltAt, CanAddToFrame, FrameAfter,
        RerunTime, Stack;
      WellFormedLinked();
      EndIsLocal(functions, log, i);
      RebuiltStart(functions, log, f.start, threadTime);
      var it := log[f.start].startAt.value + 1;
      while it != i
        invariant f.start < it <= i && Local(log, f.start, it)
        invariant FrameValid(f) && f.View() == RebuiltAt(functions, log, f.start, it, old(threadTime))
        invariant threadTime == RerunTime(log, f.start, it, old(threadTime))
        decreases i - it
      {
        if log[it].FunctionStart? {
          SkipRebuilt(functions, log, f.start, it, i, old(threadTime));
          threadTime := log[it].exited;
          it := log[it].endAt.value + 1;
          continue;
        }
        NoEndBetween(functions, log, f.start, it, i);
        LocalNext(functions, log, f.start, it);
        RerunNext(log, f.start, it, old(threadTime));
        if log[it].IsFunctionLevel() {
          CanAddLocal(functions, log, initial, f.start, it);
          RebuiltLocal(functions, log, f.start, it, old(threadTime));
          AddToFrame(f, it);
          if log[it].IsInstruction() {
            threadTime := threadTime + 1;
          }
        } else {
          RebuiltElsewhere(functions, log, f.start, it, old(threadTime));
        }
        it := it + 1;
      }
    }

    method RecreateFrame(i: nat) returns (f: FunctionState)
      requires WellFormed(functions, log, initial) && i < |log| && log[i].FunctionEnd?
      modifies this`threadTime
      ensures log[i].functionStart < i && log[log[i].functionStart].FunctionStart? && Linked(functions, log)
      ensures fresh(f) && FrameValid(f)
      ensures f.View() == RebuiltAt(functions, log, log[i].functionStart, i, old(threadTime))
    {
      hide WellFormed, FrameAt, RebuiltAt;
      WellFormedLinked();
      EndIsLocal(functions, log, i);
      var start := log[i].functionStart;
      f := new FunctionState(start, log[start].fn, functions[log[start].fn]);
      RebuildFrame(f, i);
    }

    /** The areas of a frame are put back in the reverse of the order of their removal. */
    method UnremoveFrameAreas(f: FunctionState)
      requires parent.Valid() && f !in parent.Repr()
      requires P.CanRevert(parent.View(), P.Deallocate(FrameAreas(f.View())))
      modifies parent.Repr()
      ensures parent.Valid() && parent.View() == P.Revert(old(parent.View()), P.Deallocate(FrameAreas(f.View())))
      ensures fresh(parent.Repr() - old(parent.Repr())) && parent.processTime == old(parent.processTime)
    {
      hide ProcessState.Valid, FunctionState.Blocks, AllocaAreas, ByValAreas;
      var byVals, allocas := ByValAreas(f.paramByVals), AllocaAreas(f.allocas);
      UnremoveAllParts(parent.memory.view, byVals, allocas);
      parent.UnremoveAreas(allocas);
      parent.UnremoveAreas(byVals);
    }

    method RemoveFunctionEnd(i: nat)
      requires Valid() && i < |log| && log[i].FunctionEnd? && CanRemove(functions, log, View(), i)
      modifies this`callStack, this`frames, this`repr, this`threadTime, parent.Repr()
      ensures Valid() && View() == RemoveEvent(functions, log, old(View()), i)
      ensures fresh(repr - old(repr)) && fresh(parent.Repr() - old(parent.Repr()))
    {
      hide Valid, WellFormed, Linked, CanRemove, RemoveEvent, ProcessState.Valid, FunctionState.Valid,
        FunctionState.View, FrameAt, RebuiltAt, FrameAreas, FrameValid, P.Revert, P.CanRevert;
      ValidParts();
      WellFormedLinked();
      RemoveEndIs(functions, log, View(), i);
      var f := RecreateFrame(i);
      UnremoveFrameAreas(f);
      ParentChanged();
      PushFrame(f, log[log[i].functionStart].exited - 1);
    }

    method RemoveShared(i: nat)
      requires Valid() && i < |log| && IsShared(log[i]) && CanRemove(functions, log, View(), i)
      modifies this`processTime, parent.Repr()
      ensures Valid() && View() == RemoveEvent(functions, log, old(View()), i)
      ensures fresh(parent.Repr() - old(parent.Repr()))
    {
      hide Valid, WellFormed, Linked, ChangeOf, CanRemove, RemoveEvent, ProcessState.Valid, FunctionState.Valid,
        FrameValid, P.CanRevert, P.Revert, ViewAt;
      ValidParts();
      WellFormedLinked();
      RemoveSharedIs(functions, log, View(), i);
      var c := ReadChange(i);
      parent.Revert(c);
      if log[i].IsTimedChange() {
        parent.SetProcessTime(log[i].time - 1);
      }
      if log[i].ProcessTime().Some? {
        processTime := RFindProcessTime(log, i);
      }
      ParentChanged();
    }

    method RemoveEventAt(i: nat)
      requires Valid() && i < |log| && CanRemove(functions, log, View(), i)
      requires log[i].IsFunctionLevel() ==> frames != [] && Local(log, frames[|frames| - 1].start, i)
      modifies this, repr, parent.Repr()
      ensures Valid() && View() == RemoveEvent(functions, log, old(View()), i) && nextEvent == old(nextEvent)
      ensures fresh(repr - old(repr)) && fresh(parent.Repr() - old(parent.Repr()))
    {
      hide WellFormed, CanRemove, RemoveEvent, FrameValid, ProcessState.Valid, Local;
      if log[i].FunctionStart? {
        RemoveFunctionStart(i);
      } else if log[i].FunctionEnd? {
        RemoveFunctionEnd(i);
      } else if log[i].IsFunctionLevel() {
        RemoveLocal(i);
      } else {
        RemoveShared(i);
      }
    }

    /** Removing the previous event never fails an assertion, and leaves a state that a walk can reach. */
    method RemovePreviousEvent()
      requires Settled() && nextEvent > 0
      modifies this, repr, parent.Repr()
      ensures Settled() && nextEvent == old(nextEvent) - 1
      ensures CanRemove(functions, log, old(View()), nextEvent)
      ensures View() == RemoveEvent(functions, log, old(View()), nextEvent)
      ensures fresh(repr - old(repr)) && fresh(parent.Repr() - old(parent.Repr()))
    {
      hide WellFormed, CanRemove, RemoveEvent, FrameValid, ProcessState.Valid, Walked, Replayable, Local, RestartableAt;
      var i := nextEvent - 1;
      WellFormedLinked();
      ReplayablePrefix(functions, log, initial, i, |log|);
      StepBackward(functions, log, initial, View(), i);
      TopIsPlaced(i);
      RemoveEventAt(i);
      nextEvent := i;
    }

    lemma TopIsPlaced(i: nat)
      requires Settled() && nextEvent == i + 1
      ensures log[i].IsFunctionLevel() ==> frames != [] && Local(log, frames[|frames| - 1].start, i)
    {
      hide WellFormed, FrameValid, ProcessState.Valid, SameFrames, P.SameProcess, SameTime, Local, Replayable,
        ReplayTo;
      WellFormedLinked();
      if log[i].IsFunctionLevel() {
        TopIsLocal(functions, log, frames, i);
      }
    }

    /** In such a state every reader sees what forward replay to the same event would show. */
    lemma SettledEquivalent()
      requires Settled()
      ensures Equivalent(functions, View(), Replayed(functions, log, initial, nextEvent))
    {
      hide WellFormed, FrameValid, ProcessState.Valid, Walked, Replayable, ReplayTo, Equivalent;
      WellFormedLinked();
      WalkedEquivalent(functions, log, initial, View(), nextEvent);
    }
  }
}

