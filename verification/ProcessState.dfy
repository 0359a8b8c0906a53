/** The state shared by the threads of a replayed process, updated in place by the events of a thread.
    Every method is proved against the change of the same event in ProcessModel, or its inverse; the memory
    is an object of its own. */
module ProcessState {
  import opened Common
  import M = MemoryModel
  import opened MemoryState
  import P = ProcessModel

  class ProcessState {
    var processTime: int
    var mallocs: map<nat, nat>
    var previousMallocs: seq<P.Area>
    const memory: MemoryState
    var knownMemory: map<nat, P.Region>
    var streams: map<nat, P.Stream>
    var streamsClosed: seq<P.Stream>
    var dirs: map<nat, string>

    ghost function View(): P.Process
      reads this, memory
    {
      P.Process(mallocs, previousMallocs, memory.view, knownMemory, streams, streamsClosed, dirs)
    }

    ghost predicate Valid()
      reads this, memory, memory.repr
      ensures Valid() ==> View().Valid() && memory in Repr()
    {
      this !in memory.repr && memory.Valid() && View().Valid()
    }

    /** The objects that an event may change. */
    ghost function Repr(): set<object>
      reads this, memory
    {
      {this} + memory.repr
    }

    constructor ()
      ensures Valid() && processTime == 0 && fresh(Repr())
      ensures View() == P.Process(map[], [], M.EmptyMemory, map[], map[], [], map[])
    {
      processTime := 0;
      mallocs, previousMallocs := map[], [];
      memory := new MemoryState();
      knownMemory := map[];
      streams, streamsClosed, dirs := map[], [], map[];
    }

    method SetProcessTime(time: int)
      requires Valid()
      modifies this`processTime
      ensures Valid() && View() == old(View()) && processTime == time && Repr() == old(Repr())
    {
      processTime := time;
    }

    // -------------------------------------------------------------- dynamic memory

    method AddMalloc(address: nat, size: nat)
      requires Valid() && P.CanApply(View(), P.Malloc(address, size))
      modifies Repr()
      ensures Valid() && View() == P.Apply(old(View()), P.Malloc(address, size))
      ensures fresh(Repr() - old(Repr())) && processTime == old(processTime)
    {
      mallocs := mallocs[address := size];
      memory.AllocationAdd(address, size);
    }

    method UnaddMalloc(address: nat, size: nat)
      requires Valid() && P.CanRevert(View(), P.Malloc(address, size))
      modifies Repr()
      ensures Valid() && View() == P.Revert(old(View()), P.Malloc(address, size))
      ensures fresh(Repr() - old(Repr())) && processTime == old(processTime)
    {
      hide M.Undo, M.CanUndo;
      mallocs := mallocs - {address};
      memory.AllocationUnadd(address, size);
    }

    method RemoveMalloc(address: nat)
      requires Valid() && P.CanApply(View(), P.Free(address))
      modifies Repr()
      ensures Valid() && View() == P.Apply(old(View()), P.Free(address))
      ensures fresh(Repr() - old(Repr())) && processTime == old(processTime)
    {
      var size := mallocs[address];
      hide M.Do;
      memory.AllocationRemove(address, size);
      previousMallocs, mallocs := previousMallocs + [P.Area(address, size)], mallocs - {address};
    }

    method UnremoveMalloc(address: nat)
      requires Valid() && P.CanRevert(View(), P.Free(address))
      modifies Repr()
      ensures Valid() && View() == P.Revert(old(View()), P.Free(address))
      ensures fresh(Repr() - old(Repr())) && processTime == old(processTime)
    {
      hide M.Undo;
      var size := previousMallocs[|previousMallocs| - 1].size;
      memory.AllocationUnremove(address, size);
      mallocs, previousMallocs := mallocs[address := size], previousMallocs[..|previousMallocs| - 1];
    }

    method ResizeMalloc(address: nat, oldSize: nat, newSize: nat)
      requires Valid() && P.CanApply(View(), P.Reallocate(address, oldSize, newSize))
      modifies Repr()
      ensures Valid() && View() == P.Apply(old(View()), P.Reallocate(address, oldSize, newSize))
      ensures fresh(Repr() - old(Repr())) && processTime == old(processTime)
    {
      hide M.Do;
      memory.AllocationResize(address, oldSize, newSize);
      mallocs := mallocs[address := newSize];
    }

    method UnresizeMalloc(address: nat, oldSize: nat, newSize: nat)
      requires Valid() && P.CanRevert(View(), P.Reallocate(address, oldSize, newSize))
      modifies Repr()
      ensures Valid() && View() == P.Revert(old(View()), P.Reallocate(address, oldSize, newSize))
      ensures fresh(Repr() - old(Repr())) && processTime == old(processTime)
    {
      hide M.Undo;
      memory.AllocationUnresize(address, newSize, oldSize);
      mallocs := mallocs[address := oldSize];
    }

    // -------------------------------------------------------------- stack areas

    method AddArea(address: nat, size: nat)
      requires Valid() && P.CanApply(View(), P.Allocate(P.Area(address, size)))
      modifies Repr()
      ensures Valid() && View() == P.Apply(old(View()), P.Allocate(P.Area(address, size)))
      ensures fresh(Repr() - old(Repr())) && processTime == old(processTime)
    {
      memory.AllocationAdd(address, size);
    }

    method UnaddArea(address: nat, size: nat)
      requires Valid() && P.CanRevert(View(), P.Allocate(P.Area(address, size)))
      modifies Repr()
      ensures Valid() && View() == P.Revert(old(View()), P.Allocate(P.Area(address, size)))
      ensures fresh(Repr() - old(Repr())) && processTime == old(processTime)
    {
      memory.AllocationUnadd(address, size);
    }

    /** Remove areas in order. */
    method RemoveAreas(areas: seq<P.Area>)
      requires Valid() && P.CanApply(View(), P.Deallocate(areas))
      modifies Repr()
      ensures Valid() && View() == P.Apply(old(View()), P.Deallocate(areas))
      ensures fresh(Repr() - old(Repr())) && processTime == old(processTime)
    {
      var i := 0;
      while i < |areas|
        invariant 0 <= i <= |areas| && Valid()
        invariant P.CanRemoveAll(memory.view, areas[i..])
        invariant P.RemoveAll(memory.view, areas[i..]) == P.RemoveAll(old(memory.view), areas)
        invariant View() == old(View()).(memory := memory.view)
        invariant memory.repr == old(memory.repr) && processTime == old(processTime)
      {
        assert areas[i..][1..] == areas[i + 1..];
        memory.AllocationRemove(areas[i].address, areas[i].size);
        i := i + 1;
      }
    }

    /** Put areas back, the last one first, so that memory retrieves the right data. */
    method UnremoveAreas(areas: seq<P.Area>)
      requires Valid() && P.CanRevert(View(), P.Deallocate(areas))
      modifies Repr()
      ensures Valid() && View() == P.Revert(old(View()), P.Deallocate(areas))
      ensures fresh(Repr() - old(Repr())) && processTime == old(processTime)
    {
      hide M.Undo;
      var i := |areas|;
      assert areas[..i] == areas;
      while i > 0
        invariant 0 <= i <= |areas| && Valid()
        invariant P.CanUnremoveAll(memory.view, areas[..i])
        invariant P.UnremoveAll(memory.view, areas[..i]) == P.UnremoveAll(old(memory.view), areas)
        invariant View() == old(View()).(memory := memory.view)
        invariant memory.repr == old(memory.repr) && processTime == old(processTime)
      {
        i := i - 1;
        assert areas[..i + 1][..i] == areas[..i];
        memory.AllocationUnremove(areas[i].address, areas[i].size);
      }
    }

    // -------------------------------------------------------------- memory writes

    method ChangeMemory(op: M.Op)
      requires Valid() && P.CanApply(View(), P.OnMemory(op)) && (op.Block? || op.Copy? || op.Clear?)
      modifies Repr()
      ensures Valid() && View() == P.Apply(old(View()), P.OnMemory(op))
      ensures fresh(Repr() - old(Repr())) && processTime == old(processTime)
    {
      match op {
        case Block(address, data) => memory.AddBlock(address, data);
        case Copy(source, destination, size) => memory.AddCopy(source, destination, size);
        case Clear(address, size) => memory.AddClear(address, size);
      }
    }

    method UnchangeMemory(op: M.Op)
      requires Valid() && P.CanRevert(View(), P.OnMemory(op)) && (op.Block? || op.Copy? || op.Clear?)
      modifies Repr()
      ensures Valid() && View() == P.Revert(old(View()), P.OnMemory(op))
      ensures fresh(Repr() - old(Repr())) && processTime == old(processTime)
    {
      match op {
        case Block(address, data) => memory.Rewind(address, |data|);
        case Copy(_, destination, size) => memory.Rewind(destination, size);
        case Clear(address, size) => memory.RemoveClear(address, size);
      }
    }

    // -------------------------------------------------------------- known regions

    method AddKnownMemory(address: nat, size: nat, access: P.Permission)
      requires size > 0
      modifies this`knownMemory
      ensures knownMemory == P.InsertRegion(old(knownMemory), address, P.Region(address + size - 1, access))
    {
      var below := Floor(knownMemory.Keys, address);
      if below.Some? && address <= knownMemory[below.value].last { return; }
      knownMemory := knownMemory[address := P.Region(address + size - 1, access)];
    }

    method RemoveKnownMemory(address: nat)
      modifies this`knownMemory
      ensures knownMemory == P.EraseRegion(old(knownMemory), address)
    {
      var below := Floor(knownMemory.Keys, address);
      if below.None? || knownMemory[below.value].last < address { return; }
      knownMemory := knownMemory - {below.value};
    }

    method AddRegion(address: nat, size: nat, access: P.Permission)
      requires Valid() && P.CanApply(View(), P.AddRegion(address, size, access))
      modifies Repr()
      ensures Valid() && View() == P.Apply(old(View()), P.AddRegion(address, size, access))
      ensures fresh(Repr() - old(Repr())) && processTime == old(processTime)
    {
      hide M.Do, M.CanDo, P.FindRegion;
      memory.AllocationAdd(address, size);
      AddKnownMemory(address, size, access);
    }

    method UnaddRegion(address: nat, size: nat, access: P.Permission)
      requires Valid() && P.CanRevert(View(), P.AddRegion(address, size, access))
      modifies Repr()
      ensures Valid() && View() == P.Revert(old(View()), P.AddRegion(address, size, access))
      ensures fresh(Repr() - old(Repr())) && processTime == old(processTime)
    {
      hide M.Undo, P.FindRegion;
      memory.AllocationUnadd(address, size);
      RemoveKnownMemory(address);
    }

    method RemoveRegion(address: nat, size: nat, access: P.Permission)
      requires Valid() && P.CanApply(View(), P.RemoveRegion(address, size, access))
      modifies Repr()
      ensures Valid() && View() == P.Apply(old(View()), P.RemoveRegion(address, size, access))
      ensures fresh(Repr() - old(Repr())) && processTime == old(processTime)
    {
      hide M.Do, P.FindRegion;
      memory.AllocationRemove(address, size);
      RemoveKnownMemory(address);
    }

    method UnremoveRegion(address: nat, size: nat, access: P.Permission)
      requires Valid() && P.CanRevert(View(), P.RemoveRegion(address, size, access))
      modifies Repr()
      ensures Valid() && View() == P.Revert(old(View()), P.RemoveRegion(address, size, access))
      ensures fresh(Repr() - old(Repr())) && processTime == old(processTime)
    {
      hide M.Undo, M.CanUndo, P.FindRegion;
      memory.AllocationUnremove(address, size);
      AddKnownMemory(address, size, access);
    }

    // -------------------------------------------------------------- streams and directories

    method AddStream(file: nat, name: string, mode: string)
      requires Valid() && P.CanApply(View(), P.Open(file, name, mode))
      modifies this
      ensures Valid() && View() == P.Apply(old(View()), P.Open(file, name, mode))
      ensures processTime == old(processTime)
    {
      streams := streams[file := P.Stream(file, name, mode, [], [])];
    }

    method RemoveStream(file: nat)
      requires Valid()
      modifies this
      ensures Valid() && View() == old(View()).(streams := old(streams) - {file})
      ensures processTime == old(processTime)
    {
      streams := streams - {file};
    }

    method WriteStream(file: nat, data: seq<Byte>)
      requires Valid() && file in streams
      modifies this
      ensures Valid() && View() == old(View()).(streams := old(streams)[file := P.Written(old(streams)[file], data)])
      ensures processTime == old(processTime)
    {
      var s := streams[file];
      var written := s.written + data;
      streams := streams[file := s.(written := written, writes := s.writes + [|written|])];
    }

    method UnwriteStream(file: nat, size: nat)
      requires Valid() && P.CanUnwrite(View(), file, size)
      modifies this
      ensures Valid() && View() == old(View()).(streams := old(streams)[file := P.Unwritten(old(streams)[file], size)])
      ensures processTime == old(processTime)
    {
      var s := streams[file];
      streams := streams[file := s.(written := s.written[..|s.written| - size], writes := s.writes[..|s.writes| - 1])];
    }

    method WriteFromMemory(file: nat, address: nat, size: nat)
      requires Valid() && P.CanApply(View(), P.WriteFromMemory(file, address, size))
      modifies this
      ensures Valid() && View() == P.Apply(old(View()), P.WriteFromMemory(file, address, size))
      ensures processTime == old(processTime)
    {
      var data := ReadMemory(address, size);
      WriteStream(file, data);
    }

    method ReadMemory(address: nat, size: nat) returns (data: seq<Byte>)
      requires Valid() && (size > 0 ==> memory.view.Holds(address, size))
      ensures data == P.Bytes(memory.view, address, size)
    {
      if size == 0 { return []; }
      var a := memory.GetAllocation(address, size);
      data := a.data[address - a.address..address - a.address + size];
    }

    /** The range of the write that wrote a position. */
    static method GetWriteAt(s: P.Stream, position: nat) returns (begin: nat, end: nat)
      requires s.Valid() && s.writes != [] && position < |s.written|
      ensures var i := P.WriteAt(s.writes, position);
              i < |s.writes| && end == s.writes[i] && begin == if i == 0 then 0 else s.writes[i - 1]
      ensures begin <= position < end <= |s.written|
    {
      var i := 0;
      while s.writes[i] <= position
        invariant 0 <= i <= P.WriteAt(s.writes, position) < |s.writes|
        decreases |s.writes| - i
      {
        i := i + 1;
      }
      begin, end := if i == 0 then 0 else s.writes[i - 1], s.writes[i];
    }

    method CloseStream(file: nat)
      requires Valid() && P.CanApply(View(), P.Close(file))
      modifies this
      ensures Valid() && View() == P.Apply(old(View()), P.Close(file))
      ensures processTime == old(processTime)
    {
      streamsClosed := streamsClosed + [streams[file]];
      streams := streams - {file};
    }

    method RestoreStream(file: nat)
      requires Valid() && P.CanRevert(View(), P.Close(file))
      modifies this
      ensures Valid() && View() == P.Revert(old(View()), P.Close(file))
      ensures processTime == old(processTime)
    {
      streams := streams[file := streamsClosed[|streamsClosed| - 1]];
      streamsClosed := streamsClosed[..|streamsClosed| - 1];
    }

    method AddDir(dir: nat, name: string)
      requires Valid()
      modifies this
      ensures Valid() && View() == old(View()).(dirs := old(dirs)[dir := name])
      ensures processTime == old(processTime)
    {
      dirs := dirs[dir := name];
    }

    method RemoveDir(dir: nat)
      requires Valid()
      modifies this
      ensures Valid() && View() == old(View()).(dirs := old(dirs) - {dir})
      ensures processTime == old(processTime)
    {
      dirs := dirs - {dir};
    }

    // -------------------------------------------------------------- every change

    method ApplyStreamChange(c: P.Change)
      requires Valid() && P.CanApply(View(), c)
      requires c.Open? || c.Write? || c.WriteFromMemory? || c.Close? || c.OpenDir? || c.CloseDir?
      modifies Repr()
      ensures Valid() && View() == P.Apply(old(View()), c)
      ensures fresh(Repr() - old(Repr())) && processTime == old(processTime)
    {
      match c {
        case Open(file, name, mode) => AddStream(file, name, mode);
        case Write(file, data) => WriteStream(file, data);
        case WriteFromMemory(file, address, size) => WriteFromMemory(file, address, size);
        case Close(file) => CloseStream(file);
        case OpenDir(dir, name) => AddDir(dir, name);
        case CloseDir(dir, _) => RemoveDir(dir);
      }
    }

    method RevertStreamChange(c: P.Change)
      requires Valid() && P.CanRevert(View(), c)
      requires c.Open? || c.Write? || c.WriteFromMemory? || c.Close? || c.OpenDir? || c.CloseDir?
      modifies Repr()
      ensures Valid() && View() == P.Revert(old(View()), c)
      ensures fresh(Repr() - old(Repr())) && processTime == old(processTime)
    {
      match c {
        case Open(file, _, _) => RemoveStream(file);
        case Write(file, data) => UnwriteStream(file, |data|);
        case WriteFromMemory(file, _, size) => UnwriteStream(file, size);
        case Close(file) => RestoreStream(file);
        case OpenDir(dir, _) => RemoveDir(dir);
        case CloseDir(dir, name) => AddDir(dir, name);
      }
    }

    method Apply(c: P.Change)
      requires Valid() && P.CanApply(View(), c) && (c.OnMemory? ==> c.op.Block? || c.op.Copy? || c.op.Clear?)
      modifies Repr()
      ensures Valid() && View() == P.Apply(old(View()), c)
      ensures fresh(Repr() - old(Repr())) && processTime == old(processTime)
    {
      hide P.CanApply, Valid;
      match c {
        case Nothing => assert View() == P.Apply(View(), c);
        case Allocate(area) => AddArea(area.address, area.size);
        case Deallocate(areas) => RemoveAreas(areas);
        case Malloc(address, size) => AddMalloc(address, size);
        case Free(address) => RemoveMalloc(address);
        case Reallocate(address, oldSize, newSize) => ResizeMalloc(address, oldSize, newSize);
        case OnMemory(op) => ChangeMemory(op);
        case AddRegion(address, size, access) => AddRegion(address, size, access);
        case RemoveRegion(address, size, access) => RemoveRegion(address, size, access);
        case _ => ApplyStreamChange(c);
      }
    }

    method Revert(c: P.Change)
      requires Valid() && P.CanRevert(View(), c) && (c.OnMemory? ==> c.op.Block? || c.op.Copy? || c.op.Clear?)
      modifies Repr()
      ensures Valid() && View() == P.Revert(old(View()), c)
      ensures fresh(Repr() - old(Repr())) && processTime == old(processTime)
    {
      hide P.CanRevert, Valid;
      match c {
        case Nothing => assert View() == P.Revert(View(), c);
        case Allocate(area) => UnaddArea(area.address, area.size);
        case Deallocate(areas) => UnremoveAreas(areas);
        case Malloc(address, size) => UnaddMalloc(address, size);
        case Free(address) => UnremoveMalloc(address);
        case Reallocate(address, oldSize, newSize) => UnresizeMalloc(address, oldSize, newSize);
        case OnMemory(op) => UnchangeMemory(op);
        case AddRegion(address, size, access) => UnaddRegion(address, size, access);
        case RemoveRegion(address, size, access) => UnremoveRegion(address, size, access);
        case _ => RevertStreamChange(c);
      }
    }
  }
}
