/** The state shared by all threads of a replayed process, as a value: dynamic allocations, memory,
    known regions, streams and directories, with every change an event can make and its inverse. */
module ProcessModel {
  import opened Common
  import opened MemoryModel

  /** A memory region that the process knows but does not own; `last` is inclusive. */
  datatype Region = Region(last: nat, access: Permission)

  datatype Permission = NoAccess | ReadOnly | WriteOnly | ReadWrite

  /** `writes` holds the length after each write. */
  datatype Stream = Stream(file: nat, name: string, mode: string, written: seq<Byte>, writes: seq<nat>)
  {
    ghost predicate Valid() {
      && (writes != [] ==> |written| == writes[|writes| - 1])
      && forall i, j | 0 <= i < j < |writes| :: writes[i] <= writes[j]
    }
  }

  datatype Area = Area(address: nat, size: nat)

  datatype Process = Process(
    mallocs: map<nat, nat>,
    freed: seq<Area>,
    memory: Memory,
    known: map<nat, Region>,
    streams: map<nat, Stream>,
    closed: seq<Stream>,
    dirs: map<nat, string>)
  {
    ghost predicate Valid() {
      && memory.Valid()
      && (forall f | f in streams :: streams[f].file == f && streams[f].Valid())
      && (forall k | 0 <= k < |closed| :: closed[k].Valid())
      && (forall a | a in known :: a <= known[a].last)
    }
  }

  datatype Change =
    | Nothing
    | Allocate(area: Area)
    | Deallocate(areas: seq<Area>)
    | Malloc(address: nat, size: nat)
    | Free(address: nat)
    | Reallocate(address: nat, oldSize: nat, newSize: nat)
    | OnMemory(op: Op)
    | AddRegion(address: nat, size: nat, access: Permission)
    | RemoveRegion(address: nat, size: nat, access: Permission)
    | Open(file: nat, name: string, mode: string)
    | Write(file: nat, data: seq<Byte>)
    | WriteFromMemory(file: nat, address: nat, size: nat)
    | Close(file: nat)
    | OpenDir(dir: nat, name: string)
    | CloseDir(dir: nat, name: string)

  // ---------------------------------------------------------------- known regions

  /** The region that covers `a`, if the nearest region below does. */
  function FindRegion(known: map<nat, Region>, a: nat): (r: Option<nat>)
    ensures r.Some? ==> r.value in known
  {
    var k := Floor(known.Keys, a);
    if k.Some? && a <= known[k.value].last then k else None
  }

  /** Insertion is refused when the nearest region below reaches the new one. */
  function InsertRegion(known: map<nat, Region>, a: nat, r: Region): map<nat, Region> {
    if FindRegion(known, a).Some? then known else known[a := r]
  }

  function EraseRegion(known: map<nat, Region>, a: nat): map<nat, Region> {
    var k := FindRegion(known, a);
    if k.Some? then known - {k.value} else known
  }

  // ---------------------------------------------------------------- several deallocations

  predicate CanRemoveAll(m: Memory, areas: seq<Area>)
    requires m.Valid()
    decreases areas
  {
    areas == [] ||
    (CanDo(m, Remove(areas[0].address, areas[0].size)) &&
     CanRemoveAll(Do(m, Remove(areas[0].address, areas[0].size)), areas[1..]))
  }

  function RemoveAll(m: Memory, areas: seq<Area>): (r: Memory)
    requires m.Valid() && CanRemoveAll(m, areas)
    ensures r.Valid()
    decreases areas
  {
    if areas == [] then m else RemoveAll(Do(m, Remove(areas[0].address, areas[0].size)), areas[1..])
  }

  /** The last area removed is the first put back. */
  ghost predicate CanUnremoveAll(m: Memory, areas: seq<Area>)
    requires m.Valid()
    decreases |areas|
  {
    areas == [] ||
    var last := areas[|areas| - 1];
    (CanUndo(m, Remove(last.address, last.size)) &&
     CanUnremoveAll(Undo(m, Remove(last.address, last.size)), areas[..|areas| - 1]))
  }

  ghost function UnremoveAll(m: Memory, areas: seq<Area>): (r: Memory)
    requires m.Valid() && CanUnremoveAll(m, areas)
    ensures r.Valid()
    decreases |areas|
  {
    if areas == [] then m
    else
      var last := areas[|areas| - 1];
      UnremoveAll(Undo(m, Remove(last.address, last.size)), areas[..|areas| - 1])
  }

  lemma {:induction false} RemoveAllLast(m: Memory, areas: seq<Area>)
    requires m.Valid() && CanRemoveAll(m, areas) && areas != []
    ensures var last := areas[|areas| - 1];
            && CanRemoveAll(m, areas[..|areas| - 1])
            && CanDo(RemoveAll(m, areas[..|areas| - 1]), Remove(last.address, last.size))
            && RemoveAll(m, areas) == Do(RemoveAll(m, areas[..|areas| - 1]), Remove(last.address, last.size))
    decreases areas
  {
    if |areas| > 1 {
      RemoveAllLast(Do(m, Remove(areas[0].address, areas[0].size)), areas[1..]);
      assert areas[1..][..|areas[1..]| - 1] == areas[..|areas| - 1][1..];
    } else {
      var next := Do(m, Remove(areas[0].address, areas[0].size));
      assert areas[1..] == [] && areas[..0] == [];
      assert RemoveAll(next, []) == next;
    }
  }

  lemma {:induction false} RemoveAllRespects(m: Memory, n: Memory, areas: seq<Area>)
    requires m.Valid() && n.Valid() && SameMemory(m, n) && CanRemoveAll(n, areas)
    ensures CanRemoveAll(m, areas) && SameMemory(RemoveAll(m, areas), RemoveAll(n, areas))
    decreases areas
  {
    if areas != [] {
      var op := Remove(areas[0].address, areas[0].size);
      DoRespects(m, n, op);
      RemoveAllRespects(Do(m, op), Do(n, op), areas[1..]);
    }
  }

  lemma {:induction false} UnremoveAllRestores(m: Memory, n: Memory, areas: seq<Area>)
    requires m.Valid() && n.Valid() && CanRemoveAll(n, areas) && SameMemory(m, RemoveAll(n, areas))
    ensures CanUnremoveAll(m, areas) && SameMemory(UnremoveAll(m, areas), n)
    decreases |areas|
  {
    if areas != [] {
      var last := areas[|areas| - 1];
      RemoveAllLast(n, areas);
      UndoRestores(m, RemoveAll(n, areas[..|areas| - 1]), Remove(last.address, last.size));
      UnremoveAllRestores(Undo(m, Remove(last.address, last.size)), n, areas[..|areas| - 1]);
    }
  }

  // ---------------------------------------------------------------- changes and their inverses

  predicate Initialized(m: Memory, start: nat, size: nat)
    requires m.Valid()
  {
    && m.Holds(start, size)
    && var a := m.allocations[m.Candidate(start).value];
       forall k | start - a.address <= k < start - a.address + size :: a.init[k] == 255
  }

  function Bytes(m: Memory, start: nat, size: nat): (r: seq<Byte>)
    requires m.Valid() && (size > 0 ==> m.Holds(start, size))
    ensures |r| == size
  {
    if size == 0 then []
    else
      var a := m.allocations[m.Candidate(start).value];
      a.data[start - a.address..start - a.address + size]
  }

  /** What the source asserts, and what a well-formed log promises, before each change. */
  predicate CanApply(p: Process, c: Change)
    requires p.Valid()
  {
    match c
    case Nothing => true
    case Allocate(area) => CanDo(p.memory, Add(area.address, area.size))
    case Deallocate(areas) => CanRemoveAll(p.memory, areas)
    case Malloc(a, size) => a !in p.mallocs && CanDo(p.memory, Add(a, size))
    case Free(a) => a in p.mallocs && CanDo(p.memory, Remove(a, p.mallocs[a]))
    case Reallocate(a, oldSize, newSize) =>
      a in p.mallocs && p.mallocs[a] == oldSize && CanDo(p.memory, Realloc(a, oldSize, newSize))
    case OnMemory(op) => CanDo(p.memory, op)
    case AddRegion(a, size, _) => size > 0 && FindRegion(p.known, a).None? && CanDo(p.memory, Add(a, size))
    case RemoveRegion(a, size, access) =>
      && size > 0 && a in p.known && p.known[a] == Region(a + size - 1, access)
      && FindRegion(p.known - {a}, a).None?
      && CanDo(p.memory, Remove(a, size))
    case Open(f, _, _) => f !in p.streams
    case Write(f, _) => f in p.streams
    case WriteFromMemory(f, a, size) => f in p.streams && (size > 0 ==> Initialized(p.memory, a, size))
    case Close(f) => f in p.streams
    case OpenDir(d, _) => d !in p.dirs
    case CloseDir(d, name) => d in p.dirs && p.dirs[d] == name
  }

  function Written(s: Stream, data: seq<Byte>): (r: Stream)
    ensures s.Valid() ==> r.Valid()
  {
    s.(written := s.written + data, writes := s.writes + [|s.written| + |data|])
  }

  function Apply(p: Process, c: Change): (r: Process)
    requires p.Valid() && CanApply(p, c)
    ensures r.Valid()
  {
    hide CanDo, Do, RemoveAll, CanRemoveAll, Initialized, Stream.Valid, Written;
    match c
    case Nothing => p
    case Allocate(area) => p.(memory := Do(p.memory, Add(area.address, area.size)))
    case Deallocate(areas) => p.(memory := RemoveAll(p.memory, areas))
    case Malloc(a, size) => p.(mallocs := p.mallocs[a := size], memory := Do(p.memory, Add(a, size)))
    case Free(a) =>
      p.(mallocs := p.mallocs - {a}, freed := p.freed + [Area(a, p.mallocs[a])],
         memory := Do(p.memory, Remove(a, p.mallocs[a])))
    case Reallocate(a, oldSize, newSize) =>
      p.(mallocs := p.mallocs[a := newSize], memory := Do(p.memory, Realloc(a, oldSize, newSize)))
    case OnMemory(op) => p.(memory := Do(p.memory, op))
    case AddRegion(a, size, access) =>
      p.(known := InsertRegion(p.known, a, Region(a + size - 1, access)), memory := Do(p.memory, Add(a, size)))
    case RemoveRegion(a, size, _) =>
      p.(known := EraseRegion(p.known, a), memory := Do(p.memory, Remove(a, size)))
    case Open(f, name, mode) => p.(streams := p.streams[f := Stream(f, name, mode, [], [])])
    case Write(f, data) => p.(streams := p.streams[f := Written(p.streams[f], data)])
    case WriteFromMemory(f, a, size) =>
      p.(streams := p.streams[f := Written(p.streams[f], Bytes(p.memory, a, size))])
    case Close(f) => p.(streams := p.streams - {f}, closed := p.closed + [p.streams[f]])
    case OpenDir(d, name) => p.(dirs := p.dirs[d := name])
    case CloseDir(d, _) => p.(dirs := p.dirs - {d})
  }

  /** The first write that reaches beyond a position. */
  function WriteAt(writes: seq<nat>, position: nat): (i: nat)
    ensures i <= |writes| && (i < |writes| ==> position < writes[i])
    ensures forall j | 0 <= j < i :: writes[j] <= position
  {
    if writes == [] || position < writes[0] then 0 else 1 + WriteAt(writes[1..], position)
  }

  /** What each write wrote can be found again: the positions of the last write belong to it, and those of
      the earlier writes to the same writes as before. */
  lemma WritesFound(s: Stream, data: seq<Byte>, position: nat)
    requires s.Valid() && (s.writes == [] ==> s.written == []) && position < |s.written| + |data|
    ensures Written(s, data).Valid()
    ensures WriteAt(Written(s, data).writes, position) ==
            if position < |s.written| then WriteAt(s.writes, position) else |s.writes|
  {
    hide WriteAt;
    var writes := Written(s, data).writes;
    assert writes[|s.writes|] == |s.written| + |data|;
    assert forall j | 0 <= j < |s.writes| :: writes[j] == s.writes[j] <= |s.written|;
    SameWrite(writes, s.writes, position);
  }

  lemma {:induction false} SameWrite(longer: seq<nat>, shorter: seq<nat>, position: nat)
    requires shorter <= longer && |longer| == |shorter| + 1 && position < longer[|shorter|]
    ensures WriteAt(longer, position) == WriteAt(shorter, position)
  {
    if shorter != [] {
      SameWrite(longer[1..], shorter[1..], position);
    }
  }

  /** The last write is whole: without it the stream ends where the write before it did. */
  predicate CanUnwrite(p: Process, f: nat, size: nat) {
    && f in p.streams && size <= |p.streams[f].written|
    && var writes := p.streams[f].writes;
       writes != [] && (|writes| > 1 ==> writes[|writes| - 2] == |p.streams[f].written| - size)
  }

  /** What the source asserts before each inverse. */
  ghost predicate CanRevert(p: Process, c: Change)
    requires p.Valid()
  {
    match c
    case Nothing => true
    case Allocate(area) => CanUndo(p.memory, Add(area.address, area.size))
    case Deallocate(areas) => CanUnremoveAll(p.memory, areas)
    case Malloc(a, size) => a in p.mallocs && CanUndo(p.memory, Add(a, size))
    case Free(a) =>
      && p.freed != [] && p.freed[|p.freed| - 1].address == a && a !in p.mallocs
      && CanUndo(p.memory, Remove(a, p.freed[|p.freed| - 1].size))
    case Reallocate(a, oldSize, newSize) => a in p.mallocs && CanUndo(p.memory, Realloc(a, oldSize, newSize))
    case OnMemory(op) => CanUndo(p.memory, op)
    case AddRegion(a, size, _) => size > 0 && CanUndo(p.memory, Add(a, size))
    case RemoveRegion(a, size, _) => size > 0 && CanUndo(p.memory, Remove(a, size))
    case Open(f, _, _) => true
    case Write(f, data) => CanUnwrite(p, f, |data|)
    case WriteFromMemory(f, _, size) => CanUnwrite(p, f, size)
    case Close(f) => p.closed != [] && p.closed[|p.closed| - 1].file == f && f !in p.streams
    case OpenDir(_, _) => true
    case CloseDir(_, _) => true
  }

  function Unwritten(s: Stream, size: nat): (r: Stream)
    requires size <= |s.written| && s.writes != []
    ensures s.Valid() && (|s.writes| > 1 ==> s.writes[|s.writes| - 2] == |s.written| - size) ==> r.Valid()
  {
    s.(written := s.written[..|s.written| - size], writes := s.writes[..|s.writes| - 1])
  }

  ghost function Revert(p: Process, c: Change): (r: Process)
    requires p.Valid() && CanRevert(p, c)
    ensures r.Valid()
  {
    hide CanUndo, Undo, UnremoveAll, CanUnremoveAll, Unwritten;
    match c
    case Nothing => p
    case Allocate(area) => p.(memory := Undo(p.memory, Add(area.address, area.size)))
    case Deallocate(areas) => p.(memory := UnremoveAll(p.memory, areas))
    case Malloc(a, size) => p.(mallocs := p.mallocs - {a}, memory := Undo(p.memory, Add(a, size)))
    case Free(a) =>
      var top := p.freed[|p.freed| - 1];
      p.(mallocs := p.mallocs[a := top.size], freed := p.freed[..|p.freed| - 1],
         memory := Undo(p.memory, Remove(a, top.size)))
    case Reallocate(a, oldSize, newSize) =>
      p.(mallocs := p.mallocs[a := oldSize], memory := Undo(p.memory, Realloc(a, oldSize, newSize)))
    case OnMemory(op) => p.(memory := Undo(p.memory, op))
    case AddRegion(a, size, _) => p.(known := EraseRegion(p.known, a), memory := Undo(p.memory, Add(a, size)))
    case RemoveRegion(a, size, access) =>
      p.(known := InsertRegion(p.known, a, Region(a + size - 1, access)), memory := Undo(p.memory, Remove(a, size)))
    case Open(f, _, _) => p.(streams := p.streams - {f})
    case Write(f, data) => p.(streams := p.streams[f := Unwritten(p.streams[f], |data|)])
    case WriteFromMemory(f, _, size) => p.(streams := p.streams[f := Unwritten(p.streams[f], size)])
    case Close(f) =>
      p.(streams := p.streams[f := p.closed[|p.closed| - 1]], closed := p.closed[..|p.closed| - 1])
    case OpenDir(d, _) => p.(dirs := p.dirs - {d})
    case CloseDir(d, name) => p.(dirs := p.dirs[d := name])
  }

  /** Equal, except for the dead bytes of memory. */
  ghost predicate SameProcess(p: Process, q: Process) {
    && SameMemory(p.memory, q.memory)
    && p.(memory := EmptyMemory) == q.(memory := EmptyMemory)
  }

  lemma SameBytes(m: Memory, n: Memory, start: nat, size: nat)
    requires m.Valid() && n.Valid() && SameMemory(m, n) && size > 0 && Initialized(n, start, size)
    ensures Initialized(m, start, size) && Bytes(m, start, size) == Bytes(n, start, size)
  {
    SameLookup(m, n, start, size);
    var a, b := m.allocations[m.Candidate(start).value], n.allocations[m.Candidate(start).value];
    var o := start - a.address;
    assert forall k | o <= k < o + size :: b.init[k] == 255 && a.data[k] == b.data[k];
  }

  /** The operation on memory that a change amounts to, when it is a single one. */
  function MemoryOp(p: Process, c: Change): Option<Op>
    requires p.Valid() && CanApply(p, c)
  {
    match c
    case Allocate(area) => Some(Add(area.address, area.size))
    case Malloc(a, size) => Some(Add(a, size))
    case Free(a) => Some(Remove(a, p.mallocs[a]))
    case Reallocate(a, oldSize, newSize) => Some(Realloc(a, oldSize, newSize))
    case OnMemory(op) => Some(op)
    case AddRegion(a, size, _) => Some(Add(a, size))
    case RemoveRegion(a, size, _) => Some(Remove(a, size))
    case _ => None
  }

  lemma ApplyRespects(p: Process, q: Process, c: Change)
    requires p.Valid() && q.Valid() && SameProcess(p, q) && CanApply(q, c)
    ensures CanApply(p, c) && SameProcess(Apply(p, c), Apply(q, c))
  {
    if MemoryOp(q, c).Some? {
      DoRespects(p.memory, q.memory, MemoryOp(q, c).value);
    } else if c.Deallocate? {
      RemoveAllRespects(p.memory, q.memory, c.areas);
    } else if c.WriteFromMemory? && c.size > 0 {
      SameBytes(p.memory, q.memory, c.address, c.size);
    }
  }

  lemma RevertMallocRestores(p: Process, q: Process, a: nat, size: nat)
    requires p.Valid() && q.Valid() && CanApply(q, Malloc(a, size)) && SameProcess(p, Apply(q, Malloc(a, size)))
    ensures CanRevert(p, Malloc(a, size)) && SameProcess(Revert(p, Malloc(a, size)), q)
  {
    hide Do, CanDo, Undo, CanUndo, SameMemory;
    UndoRestores(p.memory, q.memory, Add(a, size));
    assert p.mallocs - {a} == q.mallocs;
  }

  lemma RevertFreeRestores(p: Process, q: Process, a: nat)
    requires p.Valid() && q.Valid() && CanApply(q, Free(a)) && SameProcess(p, Apply(q, Free(a)))
    ensures CanRevert(p, Free(a)) && SameProcess(Revert(p, Free(a)), q)
  {
    hide Do, CanDo, Undo, CanUndo, SameMemory;
    UndoRestores(p.memory, q.memory, Remove(a, q.mallocs[a]));
    assert p.freed == q.freed + [Area(a, q.mallocs[a])];
    assert p.freed[..|p.freed| - 1] == q.freed;
    assert p.mallocs[a := q.mallocs[a]] == q.mallocs;
  }

  lemma RevertReallocateRestores(p: Process, q: Process, a: nat, oldSize: nat, newSize: nat)
    requires p.Valid() && q.Valid() && CanApply(q, Reallocate(a, oldSize, newSize))
    requires SameProcess(p, Apply(q, Reallocate(a, oldSize, newSize)))
    ensures CanRevert(p, Reallocate(a, oldSize, newSize)) && SameProcess(Revert(p, Reallocate(a, oldSize, newSize)), q)
  {
    hide Do, CanDo, Undo, CanUndo, SameMemory;
    UndoRestores(p.memory, q.memory, Realloc(a, oldSize, newSize));
    assert p.mallocs[a := oldSize] == q.mallocs;
  }

  /** Adding a region and removing it again restores the regions exactly if the addition was not refused: otherwise
      the removal erases the region that refused it. Removing one and adding it again restores them exactly if the
      region itself was found, and no other is found in its absence. */
  lemma RegionInverse(known: map<nat, Region>, a: nat, r: Region)
    requires (forall k | k in known :: k <= known[k].last) && a <= r.last
    ensures EraseRegion(InsertRegion(known, a, r), a) == known <==> FindRegion(known, a).None?
    ensures var k := FindRegion(known, a);
            k.Some? ==> k.value in known && EraseRegion(InsertRegion(known, a, r), a) == known - {k.value}
    ensures InsertRegion(EraseRegion(known, a), a, r) == known <==>
            a in known && known[a] == r && FindRegion(known - {a}, a).None?
  {
    var k := FindRegion(known, a);
    if k.None? {
      assert FindRegion(known[a := r], a) == Some(a);
      assert a !in known;
      assert known[a := r] - {a} == known;
    } else {
      assert k.value !in known - {k.value};
      if k.value == a && known[a] == r {
        assert (known - {a})[a := r] == known;
      }
      assert a in known ==> k.value == a;
    }
  }

  lemma RevertRegionsRestores(p: Process, q: Process, c: Change)
    requires p.Valid() && q.Valid() && CanApply(q, c) && SameProcess(p, Apply(q, c))
    requires c.AddRegion? || c.RemoveRegion?
    ensures CanRevert(p, c) && SameProcess(Revert(p, c), q)
  {
    hide Do, CanDo, Undo, CanUndo, SameMemory, FindRegion, InsertRegion, EraseRegion;
    RegionInverse(q.known, c.address, Region(c.address + c.size - 1, c.access));
    UndoRestores(p.memory, q.memory, if c.AddRegion? then Add(c.address, c.size) else Remove(c.address, c.size));
  }

  lemma UnwriteRestores(q: Process, f: nat, data: seq<Byte>)
    requires q.Valid() && f in q.streams
    ensures var s := Written(q.streams[f], data);
            && |data| <= |s.written| && s.writes != [] && Unwritten(s, |data|) == q.streams[f]
            && (|s.writes| > 1 ==> s.writes[|s.writes| - 2] == |s.written| - |data|)
  {
    var s := Written(q.streams[f], data);
    assert s.written[..|s.written| - |data|] == q.streams[f].written;
    assert s.writes[..|s.writes| - 1] == q.streams[f].writes;
  }

  lemma CanUnwriteSame(p: Process, q: Process, f: nat, data: seq<Byte>)
    requires f in p.streams && f in q.streams && p.streams[f] == Written(q.streams[f], data)
    requires |data| <= |p.streams[f].written| && p.streams[f].writes != []
    requires |p.streams[f].writes| > 1 ==>
               p.streams[f].writes[|p.streams[f].writes| - 2] == |p.streams[f].written| - |data|
    ensures CanUnwrite(p, f, |data|)
  {
  }

  lemma RevertWriteRestores(p: Process, q: Process, c: Change, data: seq<Byte>)
    requires p.Valid() && q.Valid() && (c.Write? || c.WriteFromMemory?) && c.file in q.streams
    requires p.streams == q.streams[c.file := Written(q.streams[c.file], data)]
    requires |data| == if c.Write? then |c.data| else c.size
    requires SameProcess(p, q.(streams := p.streams))
    ensures CanRevert(p, c) && SameProcess(Revert(p, c), q)
  {
    hide Do, CanDo, Undo, CanUndo, SameMemory, Unwritten, CanUnwrite, Written, Stream.Valid, Process.Valid;
    UnwriteRestores(q, c.file, data);
    CanUnwriteSame(p, q, c.file, data);
    assert p.streams[c.file := q.streams[c.file]] == q.streams;
  }

  lemma RevertStreamsRestores(p: Process, q: Process, c: Change)
    requires p.Valid() && q.Valid() && CanApply(q, c) && SameProcess(p, Apply(q, c))
    requires c.Open? || c.Write? || c.WriteFromMemory? || c.Close?
    ensures CanRevert(p, c) && SameProcess(Revert(p, c), q)
  {
    hide Do, CanDo, Undo, CanUndo, SameMemory, Written, Unwritten, CanUnwrite, Stream.Valid;
    match c
    case Open(f, _, _) => assert p.streams - {f} == q.streams;
    case Write(f, data) => RevertWriteRestores(p, q, c, data);
    case WriteFromMemory(f, a, size) => RevertWriteRestores(p, q, c, Bytes(q.memory, a, size));
    case Close(f) =>
      assert p.streams[f := q.streams[f]] == q.streams;
      assert p.closed[..|p.closed| - 1] == q.closed;
  }

  lemma RevertDirsRestores(p: Process, q: Process, c: Change)
    requires p.Valid() && q.Valid() && CanApply(q, c) && SameProcess(p, Apply(q, c))
    requires c.Nothing? || c.OpenDir? || c.CloseDir?
    ensures CanRevert(p, c) && SameProcess(Revert(p, c), q)
  {
    match c
    case OpenDir(d, _) => assert p.dirs - {d} == q.dirs;
    case CloseDir(d, name) => assert p.dirs[d := name] == q.dirs;
    case Nothing =>
  }

  /** The inverse of a change takes whatever is equivalent to the state after it back to something
      equivalent to the state before it. */
  lemma RevertRestores(p: Process, q: Process, c: Change)
    requires p.Valid() && q.Valid() && CanApply(q, c) && SameProcess(p, Apply(q, c))
    ensures CanRevert(p, c) && SameProcess(Revert(p, c), q)
  {
    match c
    case Allocate(_) => UndoRestores(p.memory, q.memory, MemoryOp(q, c).value);
    case OnMemory(op) => UndoRestores(p.memory, q.memory, op);
    case Deallocate(areas) => UnremoveAllRestores(p.memory, q.memory, areas);
    case Malloc(a, size) => RevertMallocRestores(p, q, a, size);
    case Free(a) => RevertFreeRestores(p, q, a);
    case Reallocate(a, oldSize, newSize) => RevertReallocateRestores(p, q, a, oldSize, newSize);
    case AddRegion(_, _, _) => RevertRegionsRestores(p, q, c);
    case RemoveRegion(_, _, _) => RevertRegionsRestores(p, q, c);
    case Nothing => RevertDirsRestores(p, q, c);
    case OpenDir(_, _) => RevertDirsRestores(p, q, c);
    case CloseDir(_, _) => RevertDirsRestores(p, q, c);
    case _ => RevertStreamsRestores(p, q, c);
  }
}
