/** Forward and backward replay of one thread, as functions on values. `Add` is what adding an event
    does; `Remove` is what removing it must come to. The class of ThreadState.dfy, which searches and
    re-runs the log, is proved against both. */
module Replay {
  import opened Common
  import opened Errors
  import opened FrameModel
  import opened MemoryModel
  import opened ProcessModel
  import opened TraceLog

  datatype Frame = Frame(
    start: nat,
    fn: nat,
    blocks: Blocks,
    allocas: seq<AllocaState>,
    byVals: seq<ByVal>,
    errors: seq<ErrorState>)

  /** `view` is the thread's own view of the process time, `time` the time of the process. */
  datatype State = State(callStack: seq<Frame>, threadTime: int, view: nat, time: int, process: Process)

  function AreaOf(a: AllocaState): Area { Area(a.address, a.Size()) }

  function AllocaAreas(allocas: seq<AllocaState>): (r: seq<Area>)
    ensures |r| == |allocas|
  {
    seq(|allocas|, i requires 0 <= i < |allocas| => AreaOf(allocas[i]))
  }

  function ByValAreas(byVals: seq<ByVal>): (r: seq<Area>)
    ensures |r| == |byVals|
  {
    seq(|byVals|, i requires 0 <= i < |byVals| => Area(byVals[i].address, byVals[i].size))
  }

  /** Everything that a returning function deallocates, in the source's order. */
  function FrameAreas(f: Frame): seq<Area> {
    ByValAreas(f.byVals) + AllocaAreas(f.allocas)
  }

  function Access(readable: bool, writable: bool): Permission {
    if readable then (if writable then ReadWrite else ReadOnly)
    else (if writable then WriteOnly else NoAccess)
  }

  /** The number of leading allocas that two lists share (`std::mismatch`). */
  function CommonPrefix(s: seq<AllocaState>, t: seq<AllocaState>): (n: nat)
    ensures n <= |s| && n <= |t| && s[..n] == t[..n]
    ensures n < |s| && n < |t| ==> s[n] != t[n]
  {
    if s == [] || t == [] || s[0] != t[0] then 0 else 1 + CommonPrefix(s[1..], t[1..])
  }

  /** What an event other than FunctionEnd and StackRestore does to the process. */
  function ChangeOf(log: Log, i: nat): Change
    requires i < |log| && (log[i].Alloca? ==> IsAlloca(log, i)) && (log[i].Malloc? ==> LastPtr(log, i).Some?)
  {
    match log[i]
    case Alloca(_, _) => Change.Allocate(AreaOf(AllocaAt(log, i)))
    case ByValRegionAdd(_, a, size) => Change.Allocate(Area(a, size))
    case Malloc(size, _) => Change.Malloc(log[LastPtr(log, i).value].value.address, size)
    case Free(a, _) => Change.Free(a)
    case Realloc(a, o, n, _) => Change.Reallocate(a, o, n)
    case StateUntyped(a, data, _) => Change.OnMemory(Op.Block(a, data))
    case StateMemmove(s, d, size, _) => Change.OnMemory(Op.Copy(s, d, size))
    case StateClear(a, size, _) => Change.OnMemory(Op.Clear(a, size))
    case KnownRegionAdd(a, size, r, w) => Change.AddRegion(a, size, Access(r, w))
    case KnownRegionRemove(a, size, r, w) => Change.RemoveRegion(a, size, Access(r, w))
    case FileOpen(f, name, mode, _) => Change.Open(f, name, mode)
    case FileWrite(f, data, _) => Change.Write(f, data)
    case FileWriteFromMemory(f, a, size, _) => Change.WriteFromMemory(f, a, size)
    case FileClose(f, _) => Change.Close(f)
    case DirOpen(d, name, _) => Change.OpenDir(d, name)
    case DirClose(d, name, _) => Change.CloseDir(d, name)
    case _ => Change.Nothing
  }

  // ---------------------------------------------------------------- forward

  /** The process change made by event `i`, given the frames before it. */
  function ForwardChange(log: Log, frames: seq<Frame>, i: nat): Change
    requires RestoresRefer(log) && i < |log|
    requires (log[i].Alloca? ==> IsAlloca(log, i)) && (log[i].Malloc? ==> LastPtr(log, i).Some?)
    requires log[i].FunctionEnd? || log[i].StackRestore? ==> frames != []
  {
    if log[i].FunctionEnd? then Change.Deallocate(FrameAreas(frames[|frames| - 1]))
    else if log[i].StackRestore? then
      var allocas := frames[|frames| - 1].allocas;
      Change.Deallocate(AllocaAreas(allocas[CommonPrefix(Restored(log, i + 1), allocas)..]))
    else ChangeOf(log, i)
  }

  /** The step is one of the frame's function, and sets no value to a different one. */
  ghost predicate CanExecute(functions: seq<Function>, f: Frame, step: Step) {
    && f.fn < |functions|
    && functions[f.fn].Valid()
    && step.index < |functions[f.fn].blockOf|
    && (f.blocks.active.Some? ==> f.blocks.active.value < |functions[f.fn].blockOf|)
    && Settable(functions[f.fn], f.blocks, step)
  }

  ghost predicate CanAddToFrame(functions: seq<Function>, log: Log, f: Frame, i: nat)
    requires RestoresRefer(log) && i < |log|
  {
    if log[i].IsInstruction() then CanExecute(functions, f, StepOf(log[i]))
    else if log[i].Alloca? then IsAlloca(log, i)
    else if log[i].StackRestore? then Restored(log, i + 1) <= f.allocas
    else if log[i].ByValRegionAdd? then
      log[i].size > 0 && forall b | b in f.byVals :: !b.Contains(log[i].address)
    else if log[i].RuntimeError? then log[i].topLevel ==> f.blocks.active.Some?
    else true
  }

  /** A frame after one event of its own invocation, at thread time `t`. */
  function FrameAfter(functions: seq<Function>, log: Log, f: Frame, t: int, i: nat): Frame
    requires RestoresRefer(log) && i < |log| && CanAddToFrame(functions, log, f, i)
  {
    var e := log[i];
    if e.IsInstruction() then f.(blocks := Advance(functions[f.fn], f.blocks, StepOf(e)))
    else if e.Alloca? then f.(allocas := f.allocas + [AllocaAt(log, i)])
    else if e.StackRestore? then f.(allocas := Restored(log, i + 1))
    else if e.ByValRegionAdd? then f.(byVals := f.byVals + [ByVal(e.argument, e.address, e.size)])
    else if e.RuntimeError? && e.topLevel then
      f.(errors := f.errors + [ErrorState(i, f.blocks.active, t)])
    else f
  }

  function NewFrame(start: nat, fn: nat): Frame {
    Frame(start, fn, NoBlocks, [], [], [])
  }

  ghost predicate CanAddFrames(functions: seq<Function>, log: Log, frames: seq<Frame>, i: nat)
    requires RestoresRefer(log) && i < |log|
  {
    var e := log[i];
    && (e.IsFunctionLevel() ==> frames != [] && CanAddToFrame(functions, log, frames[|frames| - 1], i))
    && (e.StackRestore? || e.Realloc? ==> frames != [])
    && (e.FunctionEnd? ==> frames != [] && frames[|frames| - 1].start == e.functionStart)
  }

  function FramesAfter(functions: seq<Function>, log: Log, frames: seq<Frame>, t: int, i: nat): seq<Frame>
    requires RestoresRefer(log) && i < |log| && CanAddFrames(functions, log, frames, i)
  {
    var e, n := log[i], |frames|;
    if e.FunctionStart? then frames + [NewFrame(i, e.fn)]
    else if e.FunctionEnd? then frames[..n - 1]
    else if e.IsFunctionLevel() then frames[..n - 1] + [FrameAfter(functions, log, frames[n - 1], t, i)]
    else frames
  }

  /** What the source asserts before adding event `i`, and what the recorder promises of it: thread
      and process times step by one (the events of one instruction share a process time), a restore
      keeps a prefix of the allocas, and by-value areas are non-empty and apart. */
  ghost predicate CanAdd(functions: seq<Function>, log: Log, st: State, i: nat)
    requires Linked(functions, log) && i < |log| && st.process.Valid()
  {
    assert LinkedAt(functions, log, i);
    var e := log[i];
    && CanAddFrames(functions, log, st.callStack, i)
    && CanApply(st.process, ForwardChange(log, st.callStack, i))
    && (e.IsTimedChange() ==> 1 <= e.time && st.time <= e.time <= st.time + 1)
    && (e.FunctionStart? ==> st.threadTime == e.entered - 1)
    && (e.FunctionEnd? ==> st.threadTime == log[e.functionStart].exited - 1)
  }

  function ThreadTimeAfter(log: Log, threadTime: int, i: nat): int
    requires i < |log|
    requires log[i].FunctionEnd? ==> log[i].functionStart < |log| && log[log[i].functionStart].FunctionStart?
  {
    var e := log[i];
    if e.FunctionStart? then e.entered
    else if e.FunctionEnd? then log[e.functionStart].exited
    else if e.IsInstruction() || e.NewThreadTime? then threadTime + 1
    else threadTime
  }

  /** Adding event `i`. */
  ghost function AddEvent(functions: seq<Function>, log: Log, st: State, i: nat): (r: State)
    requires Linked(functions, log) && i < |log| && st.process.Valid() && CanAdd(functions, log, st, i)
    ensures r.process.Valid()
  {
    assert LinkedAt(functions, log, i);
    State(FramesAfter(functions, log, st.callStack, st.threadTime, i),
          ThreadTimeAfter(log, st.threadTime, i),
          if log[i].ProcessTime().Some? then log[i].ProcessTime().value else st.view,
          if log[i].IsTimedChange() then log[i].time else st.time,
          Apply(st.process, ForwardChange(log, st.callStack, i)))
  }

  // ---------------------------------------------------------------- backward

  /** The frame of the invocation that started at `start`, rebuilt from its own events before `n`. */
  ghost function FrameAt(functions: seq<Function>, log: Log, start: nat, n: nat): Frame
    requires Linked(functions, log) && start < n <= |log| && log[start].FunctionStart?
  {
    assert LinkedAt(functions, log, start);
    StepsGrow(log, start, n, |log|);
    Frame(start, log[start].fn, Run(functions[log[start].fn], Steps(log, start, n)),
          AllocasAt(functions, log, start, n), ByValsAt(log, start, n), ErrorsAt(log, start, n))
  }

  /** The frame of a returned invocation as the source rebuilds it, by running its events again from time `t`. */
  ghost function RebuiltAt(functions: seq<Function>, log: Log, start: nat, n: nat, t: int): Frame
    requires Linked(functions, log) && start < n <= |log| && log[start].FunctionStart?
  {
    FrameAt(functions, log, start, n).(errors := RebuiltErrors(log, start, n, t))
  }

  /** The first by-value area that contains the address is dropped, if there is one. */
  function RemoveByVal(byVals: seq<ByVal>, address: nat): seq<ByVal> {
    if byVals == [] then []
    else if byVals[0].Contains(address) then byVals[1..]
    else [byVals[0]] + RemoveByVal(byVals[1..], address)
  }

  /** What taking a restore back has to find: the recorded start of its function, or an earlier restore in it. */
  predicate Restartable(log: Log, start: nat, i: nat)
    requires i < |log|
  {
    start < i && log[start].FunctionStart? && (log[start].startAt == Some(start) || HasRestore(log, start, i))
  }

  predicate RestartableAt(log: Log, i: nat)
    requires i < |log|
  {
    var s := Stack(log, i);
    log[i].StackRestore? ==> s != [] && Restartable(log, s[|s| - 1], i)
  }

  ghost predicate CanRemoveFromFrame(functions: seq<Function>, log: Log, f: Frame, i: nat)
    requires i < |log|
  {
    var e := log[i];
    if e.IsInstruction() then
      f.fn < |functions| && CanRetreat(functions[f.fn], f.blocks, Previous(log, f.start, i))
    else if e.Alloca? then f.allocas != []
    else if e.StackRestore? then Restartable(log, f.start, i)
    else if e.RuntimeError? then e.topLevel ==> f.errors != []
    else true
  }

  ghost function FrameBefore(functions: seq<Function>, log: Log, f: Frame, t: int, i: nat): Frame
    requires Linked(functions, log) && i < |log| && CanRemoveFromFrame(functions, log, f, i)
  {
    var e := log[i];
    if e.IsInstruction() then
      f.(blocks := Retreat(functions[f.fn], f.blocks, Previous(log, f.start, i)),
         errors := f.errors + ErrorsAgain(log, f.start, i, t))
    else if e.Alloca? then f.(allocas := f.allocas[..|f.allocas| - 1])
    else if e.StackRestore? then f.(allocas := AllocasAt(functions, log, f.start, i))
    else if e.ByValRegionAdd? then f.(byVals := RemoveByVal(f.byVals, e.address))
    else if e.RuntimeError? && e.topLevel then f.(errors := f.errors[..|f.errors| - 1])
    else f
  }

  /** The process change that removing event `i` reverts, given the frames after it. */
  ghost function BackwardChange(functions: seq<Function>, log: Log, frames: seq<Frame>, i: nat): Change
    requires Linked(functions, log) && i < |log|
    requires log[i].StackRestore? || log[i].Alloca? ==> frames != []
    requires log[i].Alloca? ==> frames[|frames| - 1].allocas != []
  {
    assert LinkedAt(functions, log, i);
    if log[i].FunctionEnd? then Change.Deallocate(FrameAreas(FrameAt(functions, log, log[i].functionStart, i)))
    else if log[i].StackRestore? then
      var top := frames[|frames| - 1];
      var pre := AllocasAt(functions, log, top.start, i);
      Change.Deallocate(AllocaAreas(pre[CommonPrefix(top.allocas, pre)..]))
    else if log[i].Alloca? then
      var allocas := frames[|frames| - 1].allocas;
      Change.Allocate(AreaOf(allocas[|allocas| - 1]))
    else ChangeOf(log, i)
  }

  ghost predicate CanRemoveFrames(functions: seq<Function>, log: Log, frames: seq<Frame>, i: nat)
    requires i < |log|
  {
    var e := log[i];
    && (e.FunctionStart? ==> frames != [] && frames[|frames| - 1].fn == e.fn)
    && (e.IsFunctionLevel() ==> frames != [] && CanRemoveFromFrame(functions, log, frames[|frames| - 1], i))
  }

  ghost function FramesBefore(functions: seq<Function>, log: Log, frames: seq<Frame>, t: int, i: nat): seq<Frame>
    requires Linked(functions, log) && i < |log| && CanRemoveFrames(functions, log, frames, i)
  {
    assert LinkedAt(functions, log, i);
    var e, n := log[i], |frames|;
    if e.FunctionStart? then frames[..n - 1]
    else if e.FunctionEnd? then frames + [RebuiltAt(functions, log, e.functionStart, i, t)]
    else if e.IsFunctionLevel() then frames[..n - 1] + [FrameBefore(functions, log, frames[n - 1], t, i)]
    else frames
  }

  /** What the source asserts before removing event `i`. */
  ghost predicate CanRemove(functions: seq<Function>, log: Log, st: State, i: nat)
    requires Linked(functions, log) && i < |log| && st.process.Valid()
  {
    && CanRemoveFrames(functions, log, st.callStack, i)
    && CanRevert(st.process, BackwardChange(functions, log, st.callStack, i))
  }

  function ThreadTimeBefore(log: Log, threadTime: int, i: nat): int
    requires i < |log|
    requires log[i].FunctionEnd? ==> log[i].functionStart < |log| && log[log[i].functionStart].FunctionStart?
  {
    var e := log[i];
    if e.FunctionStart? then e.entered - 1
    else if e.FunctionEnd? then log[e.functionStart].exited - 1
    else if e.IsInstruction() || e.NewThreadTime? then threadTime - 1
    else threadTime
  }

  /** Removing event `i`. The process time becomes one less than the event's, whatever it was. */
  ghost function RemoveEvent(functions: seq<Function>, log: Log, st: State, i: nat): (r: State)
    requires Linked(functions, log) && i < |log| && st.process.Valid() && CanRemove(functions, log, st, i)
    ensures r.process.Valid()
  {
    assert LinkedAt(functions, log, i);
    State(FramesBefore(functions, log, st.callStack, st.threadTime, i),
          ThreadTimeBefore(log, st.threadTime, i),
          if log[i].ProcessTime().Some? then ViewAt(log, i) else st.view,
          if log[i].IsTimedChange() then log[i].time - 1 else st.time,
          Revert(st.process, BackwardChange(functions, log, st.callStack, i)))
  }

  // ---------------------------------------------------------------- plain forward replay

  ghost predicate Replayable(functions: seq<Function>, log: Log, initial: Process, n: nat)
    requires Linked(functions, log) && n <= |log| && initial.Valid()
    decreases n, 0
  {
    n == 0 ||
    (Replayable(functions, log, initial, n - 1) &&
     CanAdd(functions, log, ReplayTo(functions, log, initial, n - 1), n - 1))
  }

  /** The state after adding the first `n` events, starting from the given process. */
  ghost function ReplayTo(functions: seq<Function>, log: Log, initial: Process, n: nat): (r: State)
    requires Linked(functions, log) && n <= |log| && initial.Valid()
    requires Replayable(functions, log, initial, n)
    ensures r.process.Valid()
    decreases n, 1
  {
    if n == 0 then State([], 0, 0, 0, initial)
    else AddEvent(functions, log, ReplayTo(functions, log, initial, n - 1), n - 1)
  }
}
