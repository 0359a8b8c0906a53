/** The event log of one thread, and what the source's searches over it find. An offset into the
    trace file is modelled as an index into the log. */
module TraceLog {
  import opened Common
  import opened FrameModel

  /** `startAt` and `endAt` of a FunctionStart are filled in when the function returns. The four
      integer sizes, pointers and floating point results of an instruction share one constructor, as
      do the two sizes of untyped state. */
  datatype Event =
    | TraceEnd
    | FunctionStart(fn: nat, startAt: Option<nat>, endAt: Option<nat>, entered: nat, exited: nat)
    | FunctionEnd(functionStart: nat)
    | NewProcessTime(processTime: nat)
    | NewThreadTime
    | PreInstruction(index: nat)
    | Instruction(index: nat)
    | InstructionWithValue(index: nat, value: Value)
    | Alloca(elementSize: nat, elementCount: nat)
    | StackRestore
    | StackRestoreAlloca(alloca: nat)
    | Malloc(size: nat, time: nat)
    | Free(address: nat, time: nat)
    | Realloc(address: nat, oldSize: nat, newSize: nat, time: nat)
    | StateUntyped(address: nat, data: seq<Byte>, time: nat)
    | StateMemmove(source: nat, destination: nat, size: nat, time: nat)
    | StateClear(address: nat, size: nat, time: nat)
    | KnownRegionAdd(address: nat, size: nat, readable: bool, writable: bool)
    | KnownRegionRemove(address: nat, size: nat, readable: bool, writable: bool)
    | ByValRegionAdd(argument: nat, address: nat, size: nat)
    | FileOpen(file: nat, name: string, mode: string, time: nat)
    | FileWrite(file: nat, data: seq<Byte>, time: nat)
    | FileWriteFromMemory(file: nat, address: nat, size: nat, time: nat)
    | FileClose(file: nat, time: nat)
    | DirOpen(dir: nat, name: string, time: nat)
    | DirClose(dir: nat, name: string, time: nat)
    | RuntimeError(topLevel: bool)
    | RuntimeErrorArgument
  {
    predicate IsInstruction() {
      PreInstruction? || Instruction? || InstructionWithValue?
    }

    /** Events that move the time of the whole process. */
    predicate IsTimedChange() {
      || Malloc? || Free? || Realloc? || StateUntyped? || StateMemmove? || StateClear?
      || FileOpen? || FileWrite? || FileWriteFromMemory? || FileClose? || DirOpen? || DirClose?
    }

    function ProcessTime(): Option<nat> {
      if IsTimedChange() then Some(time)
      else if NewProcessTime? then Some(processTime)
      else None
    }

    predicate IsFunctionLevel() {
      || IsInstruction() || NewThreadTime? || Alloca? || StackRestore? || StackRestoreAlloca?
      || ByValRegionAdd? || RuntimeError?
    }
  }

  type Log = seq<Event>

  function StepOf(e: Event): Step
    requires e.IsInstruction()
  {
    Step(e.index, if e.InstructionWithValue? then Some(e.value) else None, !e.PreInstruction?)
  }

  // ---------------------------------------------------------------- invocations

  /** The invocations that are open before event `n`: positions of their start events, outermost
      first. */
  function Stack(log: Log, n: nat): (s: seq<nat>)
    requires n <= |log|
    ensures forall j | 0 <= j < |s| :: s[j] < n && log[s[j]].FunctionStart?
    ensures forall i, j | 0 <= i < j < |s| :: s[i] < s[j]
  {
    if n == 0 then []
    else
      var s := Stack(log, n - 1);
      match log[n - 1]
      case FunctionStart(_, _, _, _, _) => s + [n - 1]
      case FunctionEnd(_) => if s == [] then [] else s[..|s| - 1]
      case _ => s
  }

  /** Event `i` belongs to the invocation that started at `start`. */
  predicate Local(log: Log, start: nat, i: nat)
    requires i <= |log|
  {
    var s := Stack(log, i);
    s != [] && s[|s| - 1] == start
  }

  /** The instruction events of one invocation before event `n`. */
  function Steps(log: Log, start: nat, n: nat): (s: seq<Step>)
    requires n <= |log|
  {
    if n == 0 then []
    else
      var s := Steps(log, start, n - 1);
      if log[n - 1].IsInstruction() && Local(log, start, n - 1) then s + [StepOf(log[n - 1])] else s
  }

  lemma {:induction false} StepsGrow(log: Log, start: nat, n: nat, k: nat)
    requires n <= k <= |log|
    ensures Steps(log, start, n) <= Steps(log, start, k)
    decreases k
  {
    if n < k {
      StepsGrow(log, start, n, k - 1);
    }
  }

  // ---------------------------------------------------------------- areas on the stack

  datatype AllocaState = AllocaState(index: nat, address: nat, elementSize: nat, elementCount: nat)
  {
    function Size(): nat { elementSize * elementCount }
  }

  datatype ByVal = ByVal(argument: nat, address: nat, size: nat)
  {
    predicate Contains(a: nat) { address <= a < address + size }
  }

  /** The last instruction with a pointer result before event `n`. */
  function LastPtr(log: Log, n: nat): (r: Option<nat>)
    requires n <= |log|
    ensures r.Some? ==> r.value < n && log[r.value].InstructionWithValue? && log[r.value].value.Ptr?
  {
    if n == 0 then None
    else if log[n - 1].InstructionWithValue? && log[n - 1].value.Ptr? then Some(n - 1)
    else LastPtr(log, n - 1)
  }

  predicate IsAlloca(log: Log, i: nat) {
    i < |log| && log[i].Alloca? && LastPtr(log, i).Some?
  }

  function AllocaAt(log: Log, i: nat): AllocaState
    requires IsAlloca(log, i)
  {
    var p := log[LastPtr(log, i).value];
    AllocaState(p.index, p.value.address, log[i].elementSize, log[i].elementCount)
  }

  /** Every restore record refers to an Alloca event. */
  predicate RestoresRefer(log: Log) {
    forall i | 0 <= i < |log| && log[i].StackRestoreAlloca? :: IsAlloca(log, log[i].alloca)
  }

  /** The allocas listed by the restore records from event `n` on. */
  function Restored(log: Log, n: nat): seq<AllocaState>
    requires RestoresRefer(log)
    decreases |log| - n
  {
    if n < |log| && log[n].StackRestoreAlloca? then [AllocaAt(log, log[n].alloca)] + Restored(log, n + 1)
    else []
  }

  // ---------------------------------------------------------------- times

  /** The thread's view of the process time before event `n`. */
  function ViewAt(log: Log, n: nat): nat
    requires n <= |log|
  {
    if n == 0 then 0
    else if log[n - 1].ProcessTime().Some? then log[n - 1].ProcessTime().value
    else ViewAt(log, n - 1)
  }

  /** The thread time at the end of the invocation that started at `start`. */
  function Exited(log: Log, start: nat): nat {
    if start < |log| && log[start].FunctionStart? then log[start].exited else 0
  }

  /** The thread time before event `n`. */
  function ThreadTimeAt(log: Log, n: nat): nat
    requires n <= |log|
  {
    if n == 0 then 0
    else match log[n - 1]
      case FunctionStart(_, _, _, entered, _) => entered
      case FunctionEnd(start) => Exited(log, start)
      case e => ThreadTimeAt(log, n - 1) + if e.IsInstruction() || e.NewThreadTime? then 1 else 0
  }

  // ---------------------------------------------------------------- well-formed references

  /** Functions nest, offsets refer to the events they should, function-level events have a function,
      and each invocation executes its function's instructions. */
  ghost predicate LinkedAt(functions: seq<Function>, log: Log, i: nat)
    requires i < |log|
  {
    var stack := Stack(log, i);
    && (log[i].IsFunctionLevel() ==> stack != [])
    && match log[i]
       case FunctionStart(f, _, _, _, _) => f < |functions| && Executable(functions[f], Steps(log, i, |log|))
       case FunctionEnd(s) =>
         stack != [] && stack[|stack| - 1] == s && log[s].startAt == Some(s) && log[s].endAt == Some(i)
       case Alloca(_, _) => IsAlloca(log, i)
       case Malloc(_, _) => LastPtr(log, i).Some?
       case Realloc(_, _, _, _) => stack != []
       case _ => true
  }

  ghost predicate Linked(functions: seq<Function>, log: Log) {
    RestoresRefer(log) && forall i | 0 <= i < |log| :: LinkedAt(functions, log, i)
  }

  // ---------------------------------------------------------------- one invocation, as a fold

  ghost function AllocasAt(functions: seq<Function>, log: Log, start: nat, n: nat): seq<AllocaState>
    requires Linked(functions, log) && n <= |log|
  {
    if n == 0 then []
    else
      var s := AllocasAt(functions, log, start, n - 1);
      assert LinkedAt(functions, log, n - 1);
      if !Local(log, start, n - 1) then s
      else match log[n - 1]
        case Alloca(_, _) => s + [AllocaAt(log, n - 1)]
        case StackRestore => Restored(log, n)
        case _ => s
  }

  function ByValsAt(log: Log, start: nat, n: nat): seq<ByVal>
    requires n <= |log|
  {
    if n == 0 then []
    else
      var s := ByValsAt(log, start, n - 1);
      if Local(log, start, n - 1) && log[n - 1].ByValRegionAdd?
      then s + [ByVal(log[n - 1].argument, log[n - 1].address, log[n - 1].size)]
      else s
  }

  /** A runtime error of a frame: its event, the instruction that was active and the thread time when it was added. */
  datatype ErrorState = ErrorState(event: nat, instruction: Option<nat>, threadTime: int)
  {
    predicate IsActive(now: int) { threadTime == now }
  }

  /** The last step of an invocation before event `n`. */
  function Previous(log: Log, start: nat, n: nat): Option<Step>
    requires n <= |log|
  {
    var s := Steps(log, start, n);
    if s == [] then None else Some(s[|s| - 1])
  }

  function ActiveAt(log: Log, start: nat, n: nat): Option<nat>
    requires n <= |log|
  {
    match Previous(log, start, n)
    case None => None
    case Some(step) => Some(step.index)
  }

  /** The top-level runtime errors of one invocation. */
  function ErrorsAt(log: Log, start: nat, n: nat): seq<ErrorState>
    requires n <= |log|
  {
    if n == 0 then []
    else
      var s := ErrorsAt(log, start, n - 1);
      if Local(log, start, n - 1) && log[n - 1].RuntimeError? && log[n - 1].topLevel
      then s + [ErrorState(n - 1, ActiveAt(log, start, n - 1), ThreadTimeAt(log, n - 1))]
      else s
  }

  /** A restore earlier in the same invocation. */
  predicate HasRestore(log: Log, start: nat, n: nat)
    requires n <= |log|
  {
    n > 0 && ((Local(log, start, n - 1) && log[n - 1].StackRestore?) || HasRestore(log, start, n - 1))
  }
}
