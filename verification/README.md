# SeeC, verified

SeeC records the run of a C program as a log of events and replays that log in both directions. This project
models the replay engine, the protocol that moves several threads at once, the recorder that writes the log,
the format of the trace file, and three neighbouring algorithms, and proves what they promise.

Check it with `dafny verify dfyconfig.toml`.

## What is modelled

**Reversible state.** `MemoryModel` has the allocations of replayed memory, their three kinds of saved areas, and
each operation with its inverse; `ProcessModel` the state shared by the threads; `FrameModel` the values held by one
function invocation; `TraceLog` and `Replay` the log and the effect of adding and removing each event. These are
functions on values. The classes of `MemoryState`, `FunctionState`, `ProcessState` and `ThreadState` update fields in
place as the source does, and each of their methods is proved to do what those functions say. `Walk` and `AnyWalk`
prove the walk theorem, and when walks are safe; `Errors` says what becomes of runtime errors; `Leftovers` and
`WalkAnswers` when walks answer what forward replay does; `TraceSearch` and `TraceRebuild` what the searches and re-runs
of the log find. `Witnesses` has a log for each condition under which a walk goes wrong.

Two states are equivalent when they differ only in data bytes whose initialization is zero, in values that forward
replay would not have, in the process time in the middle of a walk, and in the list of runtime errors. Everything
else is equal: call stack, alloca and by-value lists, sizes and contents of allocations, histories, dynamic
allocations, known regions, streams, directories, thread time and the view of the process time.

**Movement.** `Movement` is a state machine with one worker per thread, whose steps interleave freely, going forward
or backward; `MovementRuns` proves safety, progress, termination and outcome for every run, and gets the backward
direction from a mirroring of logs that is itself proved.

**Recorder and file.** `Recorder` relates the shadow memory to replayed memory; `TraceFile` and `TraceStorage` write
blocks and events, `TraceReader` reads them back; `ErrorCodec` writes and reads runtime errors.

**Neighbours.** `BlockValueStore` is the packed store of values, `Lookup` the search for the area that contains an
address, `GraphExpansion` the traversal of pointers, `TypeMatch` the comparison of types, `SynchronizedExit` the
protocol that stops all threads.

A log is well-formed (`AnyWalk.WellFormed`) when functions nest, offsets refer to the events that they should, indices
are those of the function, only a completed instruction has a value, an index is repeated only to complete an
execution, and forward replay meets what the source asserts and what the recorder promises: thread and process times
step by one, except that events of one instruction share a process time; a stack restore keeps a prefix of the
allocas; by-value areas are not empty and do not contain each other's start; what is allocated, opened or registered
is new, and what is freed, closed or removed is there. What going backward, and forward again, asserts is proved and not
assumed, but for two conditions on the log that are shown to be exactly what is needed (`AnyWalk.SafeIff`, below).

## What the code does that one might not expect

- Adding an instruction again finds its value in the store that was left when it was removed, and asserts with `==` that
  it is the same. A NaN is not equal to itself. And the offsets of a function's start event are zero until the function
  returns, while taking back its first stack restore looks for the start there. Of a log that forward replay accepts, no
  walk fails an assertion exactly when no instruction stores a NaN as a float or a double, except as the target of a jump
  back, and no function that never returns has a restore (`AnyWalk.SafeIff`; `Witnesses.NaNIsNotReadded`,
  `Witnesses.RestoreStays`).
- Removing an event sets the process time to one less than the event's time, while events of one instruction may share
  a time (`getCIProcessTime`). The process time is right after every walk exactly when no two successive changes
  share a time (`AnyWalk.TimeIsRightIff`; `Witnesses.SharedTime`).
- `makePreviousInstructionActive` adds runtime errors again that were never removed. And an error keeps the thread time at
  which it was added, which says whether it is active, while taking back the end of a function runs its events again from
  the time of its exit, without new thread times. The errors and their times are right after every walk exactly when no
  error is recorded between two instructions of an invocation, and every error of an invocation that returns comes after
  one of its calls, with no new thread time in between (`AnyWalk.ErrorsReturnIff`; `Witnesses.ErrorsDouble`,
  `Witnesses.ErrorIsLate`).
- A value store created after a backward jump can outlive the removal of that jump, and then answers for an instruction
  that forward replay has not run. Every walk answers exactly what forward replay does if and only if no jump back over a
  block that had no store is followed by a value stored in that block before it is cleared again
  (`Leftovers.AnswersExactlyIff` for one frame, `WalkAnswers.AnswersRightIff` for whole logs;
  `FrameModel.LeftoverAnswers`). Every value that forward replay has is right in any case (`FrameModel.WalkedAnswers`).
- The by-value area that is removed is the one added last exactly when it is not empty and no earlier one contains its
  address (`Walk.RemoveLastByVal`). The recorder writes empty areas too, and then none goes, or another
  (`Walk.OtherByValGoes`).
- Replaying an overlapping move clears the destination before the source is read. Shadow and replayed memory agree
  afterwards exactly when no byte of the overlap was initialized (`Recorder.MoveMatchesIff`; `Recorder.OverlapLoses`).
- A known region that the nearest one below overlaps is refused, yet its event is recorded, and taking that back erases the
  region below (`ProcessModel.RegionInverse`). A log is well-formed only if this does not happen.
- Replayed and shadow memory are copied with `std::memcpy`, which is undefined on ranges that overlap. The model reads the
  whole source before it writes, as `std::memmove` would.
- The counts of arguments and additional errors are written as single bytes: errors are read back exactly when all
  counts are under 256 (`ErrorCodec.RoundTrip`; `ErrorCodec.TooManyArguments`).
- The walk over the blocks of a file does not see a last block that is nothing but a header (`TraceFile.WalkFinds`).
- The comparison of types remembers types as written, not their canonical forms, so that a typedef can make equal
  types differ (`TypeMatch.TypedefsMatter`). The lengths of arrays make no difference but for the size that they give a
  record (`TypeMatch.LengthsIgnored`, `TypeMatch.LayoutsMatter`), and a function with a prototype matches nothing
  (`TypeMatch.PrototypesNeverMatch`).
- A thread that checks for a stop between its cancellation and the moment at which the stopped threads resume parks with
  nobody left to wake it (`SynchronizedExit.ParksForNothing`, `SynchronizedExit.ParkedForEver`;
  `SynchronizedExit.ThreadIsStranded`).

## Model

| member | source | states |
|---|---|---|
| MemoryModel.UndoRestores | lib/Trace/MemoryState.cpp:75-237 | For every operation of memory, its inverse meets the assertions of the source on anything equivalent to the state after, and leads to something equivalent to the state before: same allocations, sizes, initialization and histories, same data wherever initialized |
| MemoryModel.DoRespects | lib/Trace/MemoryState.cpp:353-513 | Every operation can be done on any equivalent state, with an equivalent outcome |
| MemoryModel.UndoAllRestores | lib/Trace/MemoryState.cpp:353-539 | Undoing any sequence of operations in reverse restores the state from which the sequence began, and no assertion fails on the way |
| MemoryModel.RedoAfterUndo | lib/Trace/MemoryState.cpp:353-539 | Undo any sequence and do it again: the sequence can be repeated, and ends in a state equivalent to the first end |
| MemoryModel.UnresizingRestores | lib/Trace/MemoryState.cpp:378-455 | Growing back what a resize cut off and rewinding it gives back the initialization and the live data that were cut off |
| MemoryModel.RewindRestores | lib/Trace/MemoryState.cpp:119-225 | Rewinding an area saved as complete, partial or uninitialized restores its bytes, whatever has been written over it since |
| MemoryModel.SameLookup | lib/Trace/MemoryState.cpp:301-376 | Equivalent memories select the same allocation for every address |
| MemoryState.ClearUninitialized | lib/Trace/MemoryState.cpp:138-167 | Saving an uninitialized area without touching a byte is the same as clearing it |
| MemoryState.MemoryAllocation.ClearArea | lib/Trace/MemoryState.cpp:119-167 | The area is saved on the stacks in the form that fits its initialization and its initialization is zeroed; the allocation is what MemoryModel says |
| MemoryState.MemoryAllocation.RewindArea | lib/Trace/MemoryState.cpp:169-225 | The last saved area is popped from the three stacks and written back, according to its kind |
| MemoryState.MemoryAllocation.Resizing | lib/Trace/MemoryState.cpp:378-401 | Shrinking saves and clears the end before it is cut off |
| MemoryState.MemoryState.AddCopy | lib/Trace/MemoryState.cpp:467-479 | The destination is saved and cleared before the source is read through a live view; the new memory is exactly that of the specification and no other allocation changes |
| MemoryState.MemoryState.AllocationUnremove | lib/Trace/MemoryState.cpp:403-418 | The last removed allocation returns with its bytes and its history, and leaves the stack of removed ones |
| MemoryState.MemoryState.AllocationUnresize | lib/Trace/MemoryState.cpp:432-455 | The three cases of an unresize: back from removal, away again, or back to the former size with the former contents |
| MemoryState.MemoryState.GetAllocation | lib/Trace/MemoryState.cpp:301-316 | Finds the allocation that contains an area, as a reference to the object itself |
| Lookup.LookupIsExact | lib/Trace/MemoryState.cpp:301-376 | With non-empty allocations that do not overlap, the lookup holds an area exactly when some allocation contains it, and finds that one |
| Lookup.FloorFinds | lib/Trace/ProcessState.cpp:189-201 | Stepping back from the first key above an address finds the containing area exactly when a linear search would |
| Lookup.StaysDisjoint | lib/Trace/MemoryState.cpp:353-401 | If new and grown allocations fit between the existing ones, every operation keeps allocations non-empty and apart |
| Lookup.UndoStaysDisjoint | lib/Trace/MemoryState.cpp:403-455 | So does every inverse |
| Lookup.EveryLookupIsExact | lib/Trace/MemoryState.cpp:301-455 | Over every run of operations and inverses from the empty memory, allocations are non-empty and apart, and every lookup finds what a linear search finds |
| Lookup.TrailShrinks | lib/Trace/MemoryState.cpp:403-455 | In such a run the last operation in effect can always be taken back |
| Lookup.ContainingMalloc | lib/Trace/ProcessState.cpp:189-201 | The dynamic allocation that contains an address is found if and only if there is one, even among empty allocations |
| ProcessModel.RevertRestores | lib/Trace/ProcessState.cpp:113-297 | The inverse of every change of the process can be applied to anything equivalent to the state after the change, and leads to something equivalent to the state before: mallocs, freed list, known regions, streams, closed streams and directories exactly, memory up to dead bytes |
| ProcessModel.ApplyRespects | lib/Trace/ThreadState.cpp:300-494 | Every change can be made in any equivalent state, with an equivalent outcome; a write from memory writes the same bytes |
| ProcessModel.RegionInverse | lib/Trace/ThreadState.cpp:1110-1128 | Removing a known region after adding it restores the regions if and only if the addition was not refused, that is, no region found below overlaps it; if it was, the region that refused it goes. Adding one after removing it restores them if and only if it was there itself and none below overlaps it |
| ProcessModel.UnremoveAllRestores | lib/Trace/ThreadState.cpp:845-865 | Areas put back in the reverse of the order of their removal restore memory |
| ProcessModel.WritesFound | lib/Trace/StreamState.cpp:23-60 | After a write, positions within it are found in it, and all earlier positions in the same writes as before |
| ProcessState.ProcessState.GetWriteAt | lib/Trace/StreamState.cpp:23-44 | The bounds of the write that contains a position |
| ProcessState.ProcessState.Apply | lib/Trace/ThreadState.cpp:307-494 | The fields of the process become exactly what the change prescribes |
| ProcessState.ProcessState.Revert | lib/Trace/ThreadState.cpp:1016-1194 | The fields of the process become exactly what the inverse of the change prescribes |
| ProcessState.ProcessState.UnremoveMalloc | lib/Trace/ProcessState.cpp:137-146 | The last freed allocation is current again with its address and size |
| ProcessState.ProcessState.RestoreStream | lib/Trace/ProcessState.cpp:251-259 | The last closed stream is open again with all that was written to it |
| FrameModel.RunsOnce | lib/Trace/FunctionState.cpp:133-172 | Between two clears of its block an instruction completes at most once: forward replay finds the slot that it is about to set empty |
| FrameModel.AdvanceTracks | lib/Trace/FunctionState.cpp:133-256 | Going forward keeps the relation between a walked frame and the log: all values of forward replay are there, all others agree with what their block will come to hold, and the cleared blocks are those of the jumps |
| FrameModel.RetreatTracks | lib/Trace/FunctionState.cpp:174-191 | Going back keeps it too: the jump that is undone is the last one, and its blocks return |
| FrameModel.TracksSettable | lib/Trace/BlockValueStore.cpp:231-289 | After any walk, a value left over in a slot is the one that is set next, so that the assertion of equality holds: for integers and pointers always, for floats and doubles unless the value is a NaN and the step does not jump back |
| FrameModel.NotRepeatable | lib/Trace/BlockValueStore.cpp:261-289 | Any other step fails the assertion when it is undone and taken again |
| FrameModel.AnswerIsLast | lib/Trace/FunctionState.cpp:258-298 | Forward replay answers for an instruction exactly what the log says: the value of its last execution, unless execution has jumped back over its block since |
| FrameModel.WalkedAnswers | lib/Trace/FunctionState.cpp:300-423 | After any walk every value that the log gives an instruction is answered unchanged |
| FrameModel.LeftoverAnswers | lib/Trace/FunctionState.cpp:174-191 | A walk after which an instruction that has not run yet has a value |
| Leftovers.AnswersExactlyIff | lib/Trace/FunctionState.cpp:133-191 | Every walk over the steps of a frame answers, at every position and for every instruction, exactly what the log says, if and only if no jump back over a block without a store is followed by a value stored in the block before it is cleared again |
| Leftovers.LeftoverShows | lib/Trace/FunctionState.cpp:174-191 | For each such jump: going past the value and back to before the jump answers it, where the log says nothing |
| WalkAnswers.AnswersRightIff | lib/Trace/FunctionState.cpp:133-191 | For whole logs, with calls and returns: after every walk all open frames answer exactly as after forward replay, if and only if no invocation has such a jump |
| FunctionState.FunctionState.ForwardingToInstruction | lib/Trace/FunctionState.cpp:133-172 | Blocks jumped over are moved to the cleared stack, the target block is active, and nothing else changes |
| FunctionState.FunctionState.RewindingToInstruction | lib/Trace/FunctionState.cpp:174-191 | The blocks cleared by the last backward jump are active again if this undoes it |
| FunctionState.FunctionState.SetValue | lib/Trace/FunctionState.cpp:193-256 | The frame after a value is set is that of the specification; a value that is present must be equal, in the comparison of its type, and is kept |
| FunctionState.FunctionState.RemoveByValArea | lib/Trace/FunctionState.cpp:504-514 | The first area that contains the address goes, if there is one |
| BlockValueStore.LayoutApart | lib/Trace/BlockValueStore.cpp:65-107 | The places of different instructions never overlap and stay inside the total size |
| BlockValueStore.BasicBlockInfo.constructor | lib/Trace/BlockValueStore.cpp:65-107 | The loop over a block computes each place and the totals |
| BlockValueStore.BasicBlockStore.SetData | lib/Trace/BlockValueStore.cpp:224-289 | The store refines a map: a typed set adds its value and leaves those of all other instructions alone; a value that is present must be equal in the comparison of its type, floating point included, and is kept |
| BlockValueStore.BasicBlockStore.SetAPFloat | lib/Trace/BlockValueStore.cpp:291-299 | The same for a long double, which is overwritten if present |
| BlockValueStore.BasicBlockStore.GetData | lib/Trace/BlockValueStore.cpp:302-355 | Reading gives the value that the map has, if it has one of this kind |
| BlockValueStore.BasicBlockStore.GetAPFloat | lib/Trace/BlockValueStore.cpp:357-370 | Reading a long double gives what the map has |
| BlockValueStore.StoreData | lib/Trace/BlockValueStore.cpp:231-289 | Writing the bytes of one instruction keeps the representation of all others |
| TraceSearch.RFindInFunction | include/seec/Trace/TraceSearch.hpp:165-215 | The search backward, which skips child calls by their recorded start, finds the last event of the same invocation that satisfies the predicate |
| TraceSearch.RFindProcessTime | lib/Trace/ThreadState.cpp:753-764 | The search finds the last event that has a process time |
| TraceSearch.ChildEnd | include/seec/Trace/TraceSearch.hpp:180-205 | A call between two events of an invocation has ended, and contains no event of the invocation |
| TraceRebuild.SkipChild | lib/Trace/ThreadState.cpp:825-843 | A call, from its start to its end, leaves the frame of its caller alone, so that re-running may skip it |
| TraceRebuild.SkipRebuilt | lib/Trace/ThreadState.cpp:827-843 | Skipping a call leaves the frame that is being rebuilt alone and sets the thread time to that of the call's exit |
| TraceRebuild.CanAddLocal | lib/Trace/ThreadState.cpp:816-843 | The events of an invocation can be re-run into its frame, and give the next frame |
| TraceRebuild.FoundPrevious | lib/Trace/ThreadState.cpp:703-729 | The instruction found by the search is the last step of the invocation before the event |
| Walk.ReplayFrames | lib/Trace/ThreadState.cpp:144-509 | Forward replay keeps, for every open invocation, what a fold over its own events gives, and the last time of the log as the view of the process time |
| Walk.StepForward | lib/Trace/ThreadState.cpp:684-696 | From any state that a walk can reach, adding the next event fails no assertion and leads to such a state, given that an instruction can be added again |
| Walk.StepBackward | lib/Trace/ThreadState.cpp:782-1215 | Removing the previous event fails no assertion, the one on the function of a start event included, and leads to such a state, given that a restore has its start |
| Walk.FramesBackwardEnd | lib/Trace/ThreadState.cpp:794-868 | The frame rebuilt from the log of a function that has returned is its frame just before its return, with the times of its errors if the log returns them |
| Walk.BackwardChangeSame | lib/Trace/ThreadState.cpp:928-1014 | Removing an event, be it a return or a stack restore whose allocas are found by search, reverts exactly the change that adding it made |
| Walk.RemoveLastByVal | lib/Trace/ThreadState.cpp:1130-1135 | The area removed is the one added last if and only if that one is not empty and no earlier area contains its address |
| Walk.RemovesFirst | lib/Trace/FunctionState.cpp:504-514 | What is removed is the first area that contains the address, and nothing else |
| Walk.OtherByValGoes | lib/Trace/FunctionState.cpp:504-514 | Removing an empty area removes none, or another |
| Walk.ClocksBackward | lib/Trace/ThreadState.cpp:870-915 | Thread time, view of the process time and next change of the process are as they were |
| AnyWalk.WalkTheorem | lib/Trace/ThreadState.cpp:144-1215 | From the start of any well-formed log, any sequence of moves forward and backward that stays inside the log fails no assertion and ends in a state equivalent to forward replay to where it ends |
| AnyWalk.SafeIff | lib/Trace/ThreadState.cpp:144-1215 | For a log that forward replay accepts, no walk fails an assertion if and only if every stack restore has the recorded start of its function, or an earlier restore, to be rebuilt from, and no instruction stores a NaN in a data slot unless it is the target of a jump back |
| AnyWalk.RestoreNeedsStart | lib/Trace/ThreadState.cpp:928-998 | Taking back a restore needs the start or an earlier restore |
| AnyWalk.ReaddNeedsEqual | lib/Trace/BlockValueStore.cpp:231-289 | Adding an instruction again needs its value to be equal to itself, or a jump back |
| AnyWalk.TimeIsRightIff | lib/Trace/ThreadState.cpp:1041-1046 | The process time is that of forward replay after every walk if and only if no two successive changes share a time |
| AnyWalk.RemovedTime | lib/Trace/ThreadState.cpp:1041-1046 | One removal gives back the former process time exactly when the change had a time of its own |
| AnyWalk.TimeLags | lib/Trace/ThreadState.cpp:1041-1046 | Otherwise going over that change and back leaves a wrong process time |
| AnyWalk.ErrorsReturnIff | lib/Trace/ThreadState.cpp:703-868 | After every walk all frames have the errors of forward replay, each with its instruction and thread time, if and only if no error is recorded between two instructions of an invocation and, in every invocation that returns, each error comes after a call of it with no new thread time of it in between |
| AnyWalk.RemovedErrors | lib/Trace/ThreadState.cpp:703-741 | Removing an instruction right after replay leaves other errors than before it, if one was recorded since the previous instruction |
| AnyWalk.RemovedTimes | lib/Trace/ThreadState.cpp:816-868 | Taking back an end right after replay leaves other errors than before it, if one of the invocation comes after no call or has a new thread time since |
| Errors.RerunTimes | lib/Trace/ThreadState.cpp:816-860 | At an event of an invocation that is run again, the thread time is that of forward replay if a call has returned and no new thread time has come since; otherwise it is not below the time from which the re-run began, or it is behind |
| Errors.RebuiltRight | lib/Trace/ThreadState.cpp:816-860 | If each error of a returned invocation comes after such a call, the rebuilt frame has the errors of forward replay, from whatever time the re-run begins |
| Errors.RebuiltWrong | lib/Trace/FunctionState.cpp:465-474 | If one does not, and the re-run begins later than the error, the rebuilt frame has other errors |
| Witnesses.NaNIsNotReadded | lib/Trace/BlockValueStore.cpp:276-289 | A log that forward replay accepts, with one NaN: forward over it, back, and forward again fails |
| Witnesses.RestoreStays | lib/Trace/ThreadState.cpp:928-998 | A log that forward replay accepts, with a restore in a function that does not return: it cannot be taken back |
| Witnesses.SharedTime | lib/Trace/ThreadState.cpp:1105-1109 | A log with two changes of one time: going over the second and back leaves a wrong process time |
| Witnesses.ErrorsDouble | lib/Trace/ThreadState.cpp:703-741 | A log with two errors under one instruction: going over the next instruction and back leaves other errors |
| Witnesses.ErrorIsLate | lib/Trace/FunctionState.cpp:59-61 | A log with one error after the last instruction of a function: going over the end of the function and back leaves the error with a time that is still to come, no longer active |
| ThreadState.ThreadState.AddNextEvent | lib/Trace/ThreadState.cpp:684-696 | The whole new state is that of adding the event; no assertion fails, and the state stays one that a walk can reach |
| ThreadState.ThreadState.RemovePreviousEvent | lib/Trace/ThreadState.cpp:1203-1215 | The whole new state is that of removing the event; no assertion fails, and the state stays one that a walk can reach |
| ThreadState.ThreadState.SettledEquivalent | lib/Trace/ThreadState.cpp:684-1215 | In such a state everything agrees with forward replay to the same event, in the sense of the walk theorem |
| ThreadState.ThreadState.RebuildFrame | lib/Trace/ThreadState.cpp:816-843 | Re-running the events of an invocation, with its child calls skipped, builds the frame that it had at its end, but for its errors, which get the thread times of the re-run |
| ThreadState.ThreadState.RemoveFunctionEnd | lib/Trace/ThreadState.cpp:794-868 | The frame returns to the stack, its areas to memory in reverse order, and the thread time is one less than at the exit |
| ThreadState.ThreadState.ReaddAllocas | lib/Trace/ThreadState.cpp:939-998 | The allocas from the last restore on, or from the start of the function, without those of child calls |
| ThreadState.ThreadState.RemoveStackRestore | lib/Trace/ThreadState.cpp:928-1014 | The frame has the allocas that it had before the restore |
| ThreadState.ThreadState.MakePreviousInstructionActive | lib/Trace/ThreadState.cpp:703-741 | The previous instruction of the invocation is active, or none, and cleared blocks return |
| ThreadState.ThreadState.RemoveShared | lib/Trace/ThreadState.cpp:1016-1194 | The process is reverted, its time becomes one less, and the view of the process time is the last in the log |
| ThreadState.ThreadState.AddFunctionEnd | lib/Trace/ThreadState.cpp:170-193 | By-value areas, then allocas are deallocated in order, the frame goes, and the thread time is that of the exit |
| Movement.StepKeeps | lib/Trace/StateMovement.cpp:59-112 | Every step of every worker keeps the invariant: changes are applied in the order of their times, in whole blocks, one worker at a time |
| MovementRuns.MirrorStep | lib/Trace/StateMovement.cpp:119-176 | A step backward is a step forward over mirrored logs |
| MovementRuns.MirrorEnabled | lib/Trace/StateMovement.cpp:138-151 | The waits of both directions correspond as well |
| MovementRuns.Safety | lib/Trace/StateMovement.cpp:183-315 | In every run, forward or backward, whenever no worker holds the lock, exactly the changes timed up to the process time are in effect |
| MovementRuns.TimeDetermines | lib/Trace/StateMovement.cpp:59-176 | The changes in effect depend on the process time alone, not on schedule or direction |
| MovementRuns.InOrder | lib/Trace/StateMovement.cpp:59-176 | A change is added or removed only when all earlier ones are in effect and no later one is; changes of equal time belong to one thread |
| MovementRuns.OwnerIsNotBlocked | lib/Trace/StateMovement.cpp:78-151 | The worker that owns the next time, forward or backward, can take a step whenever no worker holds the lock and no predicate has been satisfied |
| MovementRuns.NextHasOwner | lib/Trace/StateMovement.cpp:78-151 | And some worker owns it, while a time is left |
| MovementRuns.Progress | lib/Trace/StateMovement.cpp:78-151 | While any worker is at work, some worker can take a step, in either direction |
| MovementRuns.RunsEnd | lib/Trace/StateMovement.cpp:201-247 | Every movement ends: the length of a run is bounded by a measure of its first state |
| MovementRuns.DoneAtBoundary | lib/Trace/StateMovement.cpp:201-314 | A worker that is done is at a block boundary, and at the end of its log unless the movement was completed |
| MovementRuns.CancelRestores | lib/Trace/StateMovement.cpp:90-165 | A cancelled block makes no shared change and leaves its thread where the block began |
| MovementRuns.SatisfiedStays | lib/Trace/StateMovement.cpp:213-232 | Once a process predicate is satisfied, neither the process time nor any change in effect differs in the final state |
| Recorder.CallMatches | lib/Trace/TraceThreadListener.cpp:289-446 | After any record call and the replay of what it wrote, a byte is initialized in the shadow exactly when it is in replayed memory, with the value that the program has there; no assertion of replay fails. A move has to keep its source, which is exactly what is needed |
| Recorder.Simulation | lib/Trace/TraceThreadListener.cpp:289-516 | The same for whole recordings: global variables, allocations, stack areas and what follows the end of a function, known regions, writes and moves |
| Recorder.OverlapAgreesIff | lib/Trace/MemoryState.cpp:467-479 | An overlapping move is replayed with the right initialization if and only if no byte of the overlap was initialized |
| Recorder.MoveMatchesIff | lib/Trace/TraceThreadListener.cpp:426-446 | A move, overlapping or not, leaves shadow and replayed memory in agreement if and only if no byte of an overlap was initialized |
| Recorder.OverlapLoses | lib/Trace/MemoryState.cpp:467-479 | Three initialized bytes, two of them moved one on: initialization is lost |
| Recorder.GlobalMatches | lib/Trace/TraceProcessListener.cpp:436-456 | A global variable is initialized in the shadow, and in replayed memory with its initial bytes |
| Recorder.FunctionEndMatches | lib/Trace/TraceThreadListenerNotify.cpp:408-437 | The end of a function removes its areas on both sides, and the clear events written after it find nothing to clear |
| Recorder.TraceThreadListener.NotifyFunctionEnd | lib/Trace/TraceThreadListenerNotify.cpp:404-441 | Allocas, then by-value areas are cleared and removed, with an event for each |
| Recorder.MoveMatches | lib/Trace/TraceMemory.cpp:77-87 | A move that keeps its source keeps shadow and replayed memory in agreement, bytes and initialization |
| Recorder.TraceThreadListener.SetCurrentDynamicMemoryAllocation | lib/Trace/TraceProcessListener.cpp:375-397 | A known address is resized, a new one is added uninitialized |
| Recorder.TraceThreadListener.RecordRealloc | lib/Trace/TraceThreadListener.cpp:302-329 | The end that disappears is cleared, the shadow resized, and the event written with the old and the new size |
| Recorder.TraceThreadListener.RecordMemmove | lib/Trace/TraceThreadListener.cpp:426-446 | The shadow of the source is copied to the destination, and one event written |
| Recorder.TraceThreadListener.GetLengthOfKnownState | lib/Trace/TraceMemory.cpp:108-121 | The length of the longest initialized run from an address |
| TraceFile.RoundTrip | lib/Trace/TraceReader.cpp:42-320 | For any interleaving of threads that append events, reading the file back yields the events of each thread in the order in which it wrote them |
| TraceFile.WritesApart | lib/Trace/TraceStorage.cpp:96-118 | Over all interleavings of those who write to a new block, successful writes are disjoint and inside it |
| TraceFile.NothingAfterRefusal | lib/Trace/TraceStorage.cpp:96-118 | Once a block has refused a write, no write of at least one byte is accepted in the rest of any run |
| TraceFile.AppendAdds | lib/Trace/TraceStorage.cpp:179-198 | Appending an event adds it to those of its own thread and leaves the other threads alone, also when a new block is begun |
| TraceFile.WalkFinds | lib/Trace/TraceReader.cpp:258-320 | The walk over the blocks finds exactly those written, but for a last one that is nothing but a header |
| TraceFile.EventsFound | lib/Trace/TraceReader.cpp:42-76 | The walk over a block finds exactly its events: the zeros that fill it end the search |
| TraceStorage.OutputBlock.Write | lib/Trace/TraceStorage.cpp:96-118 | A write that fits is made at the old offset; any other moves the offset all the same and changes nothing |
| TraceStorage.OutputBlockThreadEventStream.Write | lib/Trace/TraceStorage.cpp:179-198 | The file gains exactly the event, in the current block or in a new one |
| TraceStorage.OutputBlockThreadEventStream.GetNewBlock | lib/Trace/TraceStorage.cpp:226-277 | A new block of this thread is appended to the file, with its header, the position of the next block, and the thread |
| TraceReader.CreateForFile | lib/Trace/TraceReader.cpp:224-320 | A file is opened only if it has the magic number, a walkable chain of blocks, one module and one process block; then the blocks are sorted as the chain has them |
| TraceReader.ReadEvents | lib/Trace/TraceReader.cpp:42-76 | The loop reads the events that the specification of a block has |
| ErrorCodec.RoundTrip | lib/Trace/TraceReader.cpp:400-446 | An error tree of any depth is read back, with any records before and after, and reading ends on its own last record, if and only if every count in it is under 256 |
| ErrorCodec.TooManyArguments | lib/Trace/TraceThreadListener.cpp:617-640 | An error with 256 arguments is not read back |
| ErrorCodec.DecodeError | lib/Trace/TraceReader.cpp:400-446 | The recursive reader with its loops returns what the specification of the format says, malformed input included |
| ErrorCodec.EventWriter.WriteError | lib/Trace/TraceThreadListener.cpp:617-640 | The recursive writer appends exactly the encoding of the error |
| GraphExpansion.ExpansionFrom | lib/Clang/GraphExpansion.cpp:89-296 | The expansion ends, on cyclic graphs too, and lists every pointer reachable through children and dereferences exactly once, in the order of addresses, although arrays without pointers are not entered |
| GraphExpansion.ExpansionImpl.Expand | lib/Clang/GraphExpansion.cpp:186-249 | Expanding one value collects all that it reaches, and nothing that it does not |
| GraphExpansion.NothingToCover | lib/Clang/GraphExpansion.cpp:159-208 | A value whose type contains no pointer reaches none |
| GraphExpansion.RangeIsFilter | lib/Clang/GraphExpansion.cpp:130-152 | In a sorted list, what lies between two lower bounds is what a linear filter finds |
| GraphExpansion.GetReferencesOfArea | lib/Clang/GraphExpansion.cpp:130-141 | The pointers whose addresses lie in the area, in order |
| GraphExpansion.IsAreaReferenced | lib/Clang/GraphExpansion.cpp:144-152 | True if and only if some pointer is in the area |
| TypeMatch.MatchDecides | lib/Clang/TypeMatch.cpp:403-462 | The comparison ends, and succeeds if and only if some one-to-one bisimulation relates the two types |
| TypeMatch.MatchSymmetric | lib/Clang/TypeMatch.cpp:403-462 | Matching is symmetric |
| TypeMatch.MatchTransitive | lib/Clang/TypeMatch.cpp:403-462 | Matching is transitive |
| TypeMatch.TypedefsMatter | lib/Clang/TypeMatch.cpp:418-434 | Two records that are equal but for a typedef do not match |
| TypeMatch.LengthsIgnored | lib/Clang/TypeMatch.cpp:155-170 | Changing the lengths of any arrays, with the layouts of records as they are, changes the outcome for no pair of types |
| TypeMatch.LayoutsMatter | lib/Clang/TypeMatch.cpp:242-245 | Records of different size or alignment do not match |
| TypeMatch.ArraysMatchAsElements | lib/Clang/TypeMatch.cpp:155-170 | Two arrays of one class match, whatever their lengths, exactly when their elements do, given that the arrays correspond |
| TypeMatch.LengthsMatch | lib/Clang/TypeMatch.cpp:155-170 | Arrays of three and of five integers match |
| TypeMatch.PrototypesNeverMatch | lib/Clang/TypeMatch.cpp:195-205 | A function with a prototype matches nothing |
| TypeMatch.TypeMatcher.MatchImpl | lib/Clang/TypeMatch.cpp:403-452 | The two histories stay equally long and free of duplicates, and the answer is that of the specification |
| TypeMatch.TypeMatcher.MatchParts | lib/Clang/TypeMatch.cpp:226-323 | Fields are compared in step, and both lists must end together |
| SynchronizedExit.StopTheWorld | lib/Util/SynchronizedExit.cpp:22-105 | In every run there is at most one stop master, the count of stopped threads is that of the parked threads and the master, and a master that may act finds every other registered thread parked |
| SynchronizedExit.StepKeeps | lib/Util/SynchronizedExit.cpp:22-125 | Every step of every thread keeps the counts |
| SynchronizedExit.ParksForNothing | lib/Util/SynchronizedExit.cpp:39-70 | A thread that checks for a stop while there is no master parks if and only if some thread is still to resume |
| SynchronizedExit.ParkedForEver | lib/Util/SynchronizedExit.cpp:39-70 | And it is parked for ever, whatever the other threads do |
| SynchronizedExit.ThreadIsStranded | lib/Util/SynchronizedExit.cpp:22-88 | A run of three threads from the initial state that strands one of them, and no continuation of which wakes it |

## Left out

- The runtime errors of frames are not part of the equivalence of walks: going backward adds errors again, or with other
  thread times, and `AnyWalk.ErrorsReturnIff` says when. The contents of errors have their own round trip.
- Walk.StepForward: that a by-value area is not empty and starts in no other one is part of a well-formed log, although
  the recorder writes empty ones; `Walk.RemoveLastByVal` says what removing them does.
- AnyWalk.WalkTheorem: leaves the process time in the middle of a walk out of the equivalence, because it is wrong there
  exactly when `AnyWalk.TimeIsRightIff` says.
- FrameModel.WalkedAnswers: agreement in one direction; `Leftovers.AnswersExactlyIff` says when there is agreement in both.
- Recorder.CallMatches: a move has to keep its source, since agreement fails otherwise (`Recorder.MoveMatchesIff`). Global
  variables that overlap each other, which both sides merge or refuse, and stack areas without a byte are left out.
- TraceFile.RoundTrip: positions in the file stay below the width of the position fields, and no event has a type of
  zero or more bytes than a block has room for; the writer takes both for granted.
- TraceReader.CreateForFile: a position of the next block that does not advance makes the source loop or read outside the
  file; here it is an error of its own.
- MovementRuns.Progress: says that some wait condition holds, not that a waiting worker is woken; the source wakes
  workers only when a predicate is satisfied.
- Movement.StepKeeps: stack, by-value and known-region events change shared memory without a time, so the multi-thread
  model has no such events; the single-thread walks do. That a time is not reused after a later view of it is part
  of `Movement.WellFormed`, and so is that all changes of one time belong to one block.
- SynchronizedExit.StopTheWorld: no spurious wake-ups, and a master does not call `exit` or `abort` again, where the loop
  of the source would spin.
- ThreadState.ThreadState.AddNextEvent: event references are positions in a sequence, so the backward iteration by
  `PreviousEventSize` and the lookup of a reference by address are not modelled.
- ProcessState.ProcessState.Apply: the allocator history of a dynamic allocation, which a resize pushes to and its
  removal does not pop, is not kept.
- GraphExpansion.ExpansionFrom: `std::sort` stands as a sorting function; `reduceReferences` and layout are not modelled.
- Addresses, sizes and times are unbounded; 64-bit wrap-around is not modelled, but the byte-wide counts of errors and the
  fixed-width fields of the file are.
- Floating-point values are their bits, with the comparison of IEEE 754; long doubles are opaque. `StateTyped`, which the
  source does not implement, temporal identifiers, and pointer objects in memory (`copyInMemoryPointerObjects` inserts
  into the map it iterates over) are absent.
- Real files: the trace is a sequence of bytes filled with zeros up to the allocated end, and system calls do not fail.
  Blocks of several threads are appended whole events at a time; steps inside one block are interleaved in
  `TraceFile.WritesApart`.
- Global variables and the stacks of other threads in `getContainingMemoryArea`, the threshold of the process data stream,
  the rewriting of a function's start event on completion, and the value returned by a movement.
- Type classes of C++ and of dependent types in `TypeMatch`; libc hooks, signals, archives, printing and resources.
