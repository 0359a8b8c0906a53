/** Recreated memory as a value: allocations, their saved areas, and every forward operation with
    its inverse. The classes of MemoryState.dfy are proved against these functions. */
module MemoryModel {
  import opened Common

  /** One area saved by a write or a clear. The source keeps three vectors of types, data bytes and
      initialization bytes; a list of these is what those vectors encode. */
  datatype Saved =
    | Uninitialized(length: nat)
    | Partial(data: seq<Byte>, init: seq<Byte>)
    | Complete(data: seq<Byte>)
  {
    function Length(): nat {
      if Uninitialized? then length else |data|
    }
  }

  datatype Allocation = Allocation(address: nat, data: seq<Byte>, init: seq<Byte>, history: seq<Saved>)
  {
    ghost predicate Valid() {
      && |data| == |init|
      && forall k | 0 <= k < |history| :: history[k].Partial? ==> |history[k].data| == |history[k].init|
    }

    predicate Contains(start: nat, length: nat) {
      address <= start && start + length <= address + |data|
    }
  }

  datatype Memory = Memory(allocations: map<nat, Allocation>, previous: seq<Allocation>)
  {
    ghost predicate Valid() {
      && (forall a | a in allocations :: allocations[a].Valid() && allocations[a].address == a)
      && (forall k | 0 <= k < |previous| :: previous[k].Valid())
    }

    /** The allocation that the source's map lookup selects for an address, contained or not. */
    function Candidate(start: nat): (r: Option<nat>)
      ensures r.Some? ==> r.value in allocations
    {
      Floor(allocations.Keys, start)
    }

    /** What `getAllocation` asserts. */
    predicate Holds(start: nat, length: nat) {
      && Candidate(start).Some?
      && allocations[Candidate(start).value].Contains(start, length)
    }
  }

  const EmptyMemory := Memory(map[], [])

  // ---------------------------------------------------------------- one allocation

  predicate Uniform(s: seq<Byte>, b: Byte) {
    forall k | 0 <= k < |s| :: s[k] == b
  }

  function NewAllocation(address: nat, size: nat): Allocation {
    Allocation(address, Fill(size, 0), Fill(size, 0), [])
  }

  function Save(a: Allocation, start: nat, length: nat): (s: Saved)
    requires a.Valid() && a.Contains(start, length)
    ensures s.Length() == length && (s.Partial? ==> |s.data| == |s.init|)
  {
    var o := start - a.address;
    var init := a.init[o..o + length];
    if Uniform(init, 0) then Uninitialized(length)
    else if Uniform(init, 255) then Complete(a.data[o..o + length])
    else Partial(a.data[o..o + length], init)
  }

  function ClearArea(a: Allocation, start: nat, length: nat): (r: Allocation)
    requires a.Valid() && a.Contains(start, length)
    ensures r.Valid() && |r.data| == |a.data| && r.address == a.address
  {
    a.(init := Splice(a.init, start - a.address, Fill(length, 0)),
       history := a.history + [Save(a, start, length)])
  }

  function SetArea(a: Allocation, start: nat, data: seq<Byte>, init: seq<Byte>): (r: Allocation)
    requires a.Valid() && a.Contains(start, |data|) && |data| == |init|
    ensures r.Valid() && |r.data| == |a.data| && r.address == a.address
  {
    a.(data := Splice(a.data, start - a.address, data),
       init := Splice(a.init, start - a.address, init))
  }

  ghost predicate CanRewind(a: Allocation, start: nat, length: nat) {
    && a.Contains(start, length)
    && a.history != []
    && a.history[|a.history| - 1].Length() == length
  }

  function RewindArea(a: Allocation, start: nat, length: nat): (r: Allocation)
    requires a.Valid() && CanRewind(a, start, length)
    ensures r.Valid() && |r.data| == |a.data| && r.address == a.address
  {
    var o := start - a.address;
    var top := a.history[|a.history| - 1];
    var b := a.(history := a.history[..|a.history| - 1]);
    match top
    case Uninitialized(_) => b.(init := Splice(a.init, o, Fill(length, 0)))
    case Partial(data, init) => b.(init := Splice(a.init, o, init), data := Splice(a.data, o, data))
    case Complete(data) => b.(init := Splice(a.init, o, Fill(length, 255)), data := Splice(a.data, o, data))
  }

  function Resized(s: seq<Byte>, size: nat): (r: seq<Byte>)
    ensures |r| == size
    ensures forall k | 0 <= k < size :: r[k] == if k < |s| then s[k] else 0
  {
    if size <= |s| then s[..size] else s + Fill(size - |s|, 0)
  }

  function Resize(a: Allocation, size: nat): (r: Allocation)
    requires a.Valid()
    ensures r.Valid() && |r.data| == size && r.address == a.address
  {
    a.(data := Resized(a.data, size), init := Resized(a.init, size))
  }

  /** The allocation left by a resize between two non-zero sizes. */
  function Resizing(a: Allocation, size: nat): (r: Allocation)
    requires a.Valid()
    ensures r.Valid() && |r.data| == size && r.address == a.address
  {
    var n := |a.data|;
    Resize(if size < n then ClearArea(a, a.address + size, n - size) else a, size)
  }

  ghost predicate CanUnresize(a: Allocation, size: nat)
    requires a.Valid()
  {
    |a.data| < size ==> CanRewind(Resize(a, size), a.address + |a.data|, size - |a.data|)
  }

  /** The inverse of Resizing: grow first, then rewind what was cleared away. */
  function Unresizing(a: Allocation, size: nat): (r: Allocation)
    requires a.Valid() && CanUnresize(a, size)
    ensures r.Valid() && |r.data| == size && r.address == a.address
  {
    var n := |a.data|;
    if n < size then RewindArea(Resize(a, size), a.address + n, size - n) else Resize(a, size)
  }

  // ---------------------------------------------------------------- operations and their inverses

  /** The forward operations of MemoryState. */
  datatype Op =
    | Add(address: nat, size: nat)
    | Remove(address: nat, size: nat)
    | Realloc(address: nat, current: nat, size: nat)
    | Block(address: nat, data: seq<Byte>)
    | Copy(source: nat, destination: nat, size: nat)
    | Clear(address: nat, size: nat)

  /** What the source asserts before each operation. */
  predicate CanDo(m: Memory, op: Op) {
    match op
    case Add(a, size) => size > 0 ==> a !in m.allocations
    case Remove(a, size) => size > 0 ==> a in m.allocations
    case Realloc(a, current, size) =>
      if current == 0 then size > 0 ==> a !in m.allocations
      else if size == 0 then a in m.allocations
      else a in m.allocations && |m.allocations[a].data| == current
    case Block(a, data) => |data| > 0 && m.Holds(a, |data|)
    case Copy(s, d, size) => size > 0 && m.Holds(s, size) && m.Holds(d, size)
    case Clear(_, size) => size > 0
  }

  function With(m: Memory, key: nat, a: Allocation): (r: Memory)
    requires m.Valid() && key in m.allocations && a.Valid() && a.address == key
    ensures r.Valid() && r.allocations.Keys == m.allocations.Keys
  {
    m.(allocations := m.allocations[key := a])
  }

  function Insert(m: Memory, a: Allocation): (r: Memory)
    requires m.Valid() && a.Valid()
    ensures r.Valid()
  {
    m.(allocations := m.allocations[a.address := a])
  }

  function Erase(m: Memory, address: nat): (r: Memory)
    requires m.Valid()
    ensures r.Valid() && r.allocations.Keys == m.allocations.Keys - {address}
  {
    m.(allocations := m.allocations - {address})
  }

  function Retire(m: Memory, address: nat): (r: Memory)
    requires m.Valid() && address in m.allocations
    ensures r.Valid()
  {
    Erase(m, address).(previous := m.previous + [m.allocations[address]])
  }

  function Paste(m: Memory, from: nat, offset: nat, to: nat, start: nat, size: nat): (r: Memory)
    requires m.Valid() && from in m.allocations && to in m.allocations
    requires offset + size <= |m.allocations[from].data| && m.allocations[to].Contains(start, size)
    ensures r.Valid()
  {
    var s := m.allocations[from];
    With(m, to, SetArea(m.allocations[to], start, s.data[offset..offset + size], s.init[offset..offset + size]))
  }

  /** The copy reads its source after the destination has been cleared, as `addArea` is handed live
      views of the source bytes. */
  function DoCopy(m: Memory, source: nat, destination: nat, size: nat): (r: Memory)
    requires m.Valid() && m.Holds(source, size) && m.Holds(destination, size)
    ensures r.Valid()
  {
    var from, to := m.Candidate(source).value, m.Candidate(destination).value;
    var cleared := With(m, to, ClearArea(m.allocations[to], destination, size));
    Paste(cleared, from, source - from, to, destination, size)
  }

  function Do(m: Memory, op: Op): (r: Memory)
    requires m.Valid() && CanDo(m, op)
    ensures r.Valid()
  {
    match op
    case Add(a, size) => if size == 0 then m else Insert(m, NewAllocation(a, size))
    case Remove(a, size) => if size == 0 then m else Retire(m, a)
    case Realloc(a, current, size) =>
      if current == 0 then (if size == 0 then m else Insert(m, NewAllocation(a, size)))
      else if size == 0 then Retire(m, a)
      else
        With(m, a, Resizing(m.allocations[a], size))
    case Block(a, data) =>
      var k := m.Candidate(a).value;
      With(m, k, SetArea(ClearArea(m.allocations[k], a, |data|), a, data, Fill(|data|, 255)))
    case Copy(s, d, size) => DoCopy(m, s, d, size)
    case Clear(a, size) =>
      if m.Holds(a, size) then var k := m.Candidate(a).value; With(m, k, ClearArea(m.allocations[k], a, size))
      else m
  }

  ghost predicate CanUnremove(m: Memory, address: nat) {
    && m.previous != []
    && m.previous[|m.previous| - 1].address == address
    && address !in m.allocations
  }

  ghost predicate CanRewindAt(m: Memory, start: nat, length: nat) {
    m.Holds(start, length) && CanRewind(m.allocations[m.Candidate(start).value], start, length)
  }

  ghost predicate CanUndo(m: Memory, op: Op)
    requires m.Valid()
  {
    match op
    case Add(a, size) => size > 0 ==> a in m.allocations
    case Remove(a, size) => size > 0 ==> CanUnremove(m, a)
    case Realloc(a, current, size) =>
      if size == 0 then current > 0 ==> CanUnremove(m, a)
      else if current == 0 then a in m.allocations
      else
        && a in m.allocations
        && |m.allocations[a].data| == size
        && CanUnresize(m.allocations[a], current)
    case Block(a, data) => |data| > 0 && CanRewindAt(m, a, |data|)
    case Copy(_, d, size) => size > 0 && CanRewindAt(m, d, size)
    case Clear(a, size) => size > 0 && (m.Holds(a, size) ==> CanRewindAt(m, a, size))
  }

  function Unretire(m: Memory, address: nat): (r: Memory)
    requires m.Valid() && CanUnremove(m, address)
    ensures r.Valid()
  {
    Insert(m, m.previous[|m.previous| - 1]).(previous := m.previous[..|m.previous| - 1])
  }

  function RewindAt(m: Memory, start: nat, length: nat): (r: Memory)
    requires m.Valid() && CanRewindAt(m, start, length)
    ensures r.Valid()
  {
    var k := m.Candidate(start).value;
    With(m, k, RewindArea(m.allocations[k], start, length))
  }

  /** The backward operations: each case is the source's inverse for the same case of Do. */
  function Undo(m: Memory, op: Op): (r: Memory)
    requires m.Valid() && CanUndo(m, op)
    ensures r.Valid()
  {
    match op
    case Add(a, size) => if size == 0 then m else Erase(m, a)
    case Remove(a, size) => if size == 0 then m else Unretire(m, a)
    case Realloc(a, current, size) =>
      if size == 0 then (if current == 0 then m else Unretire(m, a))
      else if current == 0 then Erase(m, a)
      else
        With(m, a, Unresizing(m.allocations[a], current))
    case Block(a, data) => RewindAt(m, a, |data|)
    case Copy(_, d, size) => RewindAt(m, d, size)
    case Clear(a, size) => if m.Holds(a, size) then RewindAt(m, a, size) else m
  }

  // ---------------------------------------------------------------- equivalence up to dead bytes

  /** Equal bytes wherever the initialization is non-zero. */
  ghost predicate SameLive(d: seq<Byte>, e: seq<Byte>, init: seq<Byte>) {
    && |d| == |e| == |init|
    && forall k | 0 <= k < |init| :: init[k] != 0 ==> d[k] == e[k]
  }

  ghost predicate SameSaved(s: Saved, t: Saved) {
    match s
    case Uninitialized(n) => t == Uninitialized(n)
    case Partial(data, init) => t.Partial? && t.init == init && SameLive(data, t.data, init)
    case Complete(data) => t == Complete(data)
  }

  ghost predicate SameHistory(h: seq<Saved>, i: seq<Saved>) {
    |h| == |i| && forall k | 0 <= k < |h| :: SameSaved(h[k], i[k])
  }

  ghost predicate SameAllocation(a: Allocation, b: Allocation) {
    && a.address == b.address
    && a.init == b.init
    && SameLive(a.data, b.data, a.init)
    && SameHistory(a.history, b.history)
  }

  ghost predicate SameMemory(m: Memory, n: Memory) {
    && m.allocations.Keys == n.allocations.Keys
    && (forall a | a in m.allocations :: SameAllocation(m.allocations[a], n.allocations[a]))
    && |m.previous| == |n.previous|
    && (forall k | 0 <= k < |m.previous| :: SameAllocation(m.previous[k], n.previous[k]))
  }

  // ---------------------------------------------------------------- proofs, one allocation

  lemma SameSave(a: Allocation, b: Allocation, start: nat, length: nat)
    requires a.Valid() && b.Valid() && SameAllocation(a, b) && a.Contains(start, length)
    ensures SameSaved(Save(a, start, length), Save(b, start, length))
  {
    var o := start - a.address;
    if Uniform(a.init[o..o + length], 255) {
      forall k | o <= k < o + length ensures a.init[k] == 255 {
        assert a.init[o..o + length][k - o] == a.init[k];
      }
      assert a.data[o..o + length] == b.data[o..o + length];
    }
  }

  lemma SameClear(a: Allocation, b: Allocation, start: nat, length: nat)
    requires a.Valid() && b.Valid() && SameAllocation(a, b) && a.Contains(start, length)
    ensures SameAllocation(ClearArea(a, start, length), ClearArea(b, start, length))
  {
    SameSave(a, b, start, length);
  }

  lemma SameSet(a: Allocation, b: Allocation, start: nat, d: seq<Byte>, e: seq<Byte>, init: seq<Byte>)
    requires a.Valid() && b.Valid() && SameAllocation(a, b) && a.Contains(start, |init|) && SameLive(d, e, init)
    ensures SameAllocation(SetArea(a, start, d, init), SetArea(b, start, e, init))
  {
  }

  /** `a` is `b` after one more save of an area, with anything done inside that area. */
  ghost predicate SavedOver(a: Allocation, b: Allocation, start: nat, length: nat)
    requires b.Valid() && b.Contains(start, length)
  {
    && a.address == b.address
    && |a.data| == |a.init| == |b.data|
    && |a.history| == |b.history| + 1
    && SameHistory(a.history[..|b.history|], b.history)
    && SameSaved(a.history[|b.history|], Save(b, start, length))
    && forall k | 0 <= k < |b.data| :: !(start <= b.address + k < start + length) ==>
         a.init[k] == b.init[k] && (b.init[k] != 0 ==> a.data[k] == b.data[k])
  }

  /** What a saved area says about the bytes that it was saved from. */
  lemma SavedBytes(b: Allocation, start: nat, length: nat, s: Saved)
    requires b.Valid() && b.Contains(start, length) && SameSaved(s, Save(b, start, length))
    ensures s.Length() == length && (s.Partial? ==> |s.init| == length)
    ensures var o := start - b.address;
            forall k | o <= k < o + length ::
              match s
              case Uninitialized(_) => b.init[k] == 0
              case Partial(data, init) => init[k - o] == b.init[k] && (b.init[k] != 0 ==> data[k - o] == b.data[k])
              case Complete(data) => b.init[k] == 255 && data[k - o] == b.data[k]
  {
    var o := start - b.address;
    forall k | o <= k < o + length
      ensures b.init[o..o + length][k - o] == b.init[k] && b.data[o..o + length][k - o] == b.data[k]
    {
    }
  }

  lemma RewindRestores(a: Allocation, b: Allocation, start: nat, length: nat)
    requires a.Valid() && b.Valid() && b.Contains(start, length) && SavedOver(a, b, start, length)
    ensures CanRewind(a, start, length)
    ensures SameAllocation(RewindArea(a, start, length), b)
  {
    hide Save, SameSaved, Splice, Fill;
    SavedBytes(b, start, length, a.history[|b.history|]);
    var r := RewindArea(a, start, length);
    forall k | 0 <= k < |b.data| ensures r.init[k] == b.init[k] && (b.init[k] != 0 ==> r.data[k] == b.data[k]) {
    }
    assert r.history == a.history[..|b.history|];
  }

  lemma ClearSaves(b: Allocation, start: nat, length: nat)
    requires b.Valid() && b.Contains(start, length)
    ensures SavedOver(ClearArea(b, start, length), b, start, length)
  {
  }

  lemma SavedOverSame(a: Allocation, c: Allocation, b: Allocation, start: nat, length: nat)
    requires a.Valid() && b.Valid() && c.Valid() && b.Contains(start, length)
    requires SameAllocation(a, c) && SavedOver(c, b, start, length)
    ensures SavedOver(a, b, start, length)
  {
  }

  lemma SavedOverSet(a: Allocation, b: Allocation, start: nat, data: seq<Byte>, init: seq<Byte>)
    requires a.Valid() && b.Valid() && |data| == |init| && b.Contains(start, |data|)
    requires SavedOver(a, b, start, |data|)
    ensures a.Contains(start, |data|) && SavedOver(SetArea(a, start, data, init), b, start, |data|)
  {
  }

  // ---------------------------------------------------------------- proofs, whole memory

  /** Equivalent memories select the same allocation for every address. */
  lemma SameLookup(m: Memory, n: Memory, start: nat, length: nat)
    requires m.Valid() && n.Valid() && SameMemory(m, n)
    ensures m.Candidate(start) == n.Candidate(start)
    ensures m.Holds(start, length) == n.Holds(start, length)
  {
  }

  lemma SameWith(m: Memory, n: Memory, k: nat, a: Allocation, b: Allocation)
    requires m.Valid() && n.Valid() && SameMemory(m, n) && k in m.allocations
    requires a.Valid() && b.Valid() && a.address == k == b.address && SameAllocation(a, b)
    ensures SameMemory(With(m, k, a), With(n, k, b))
  {
  }

  lemma AllocationRespects(m: Memory, n: Memory, op: Op)
    requires m.Valid() && n.Valid() && SameMemory(m, n) && CanDo(n, op) && (op.Add? || op.Remove?)
    ensures CanDo(m, op) && SameMemory(Do(m, op), Do(n, op))
  {
  }

  lemma SameResize(a: Allocation, b: Allocation, size: nat)
    requires a.Valid() && b.Valid() && SameAllocation(a, b)
    ensures SameAllocation(Resize(a, size), Resize(b, size))
  {
  }

  lemma SameResizing(a: Allocation, b: Allocation, size: nat)
    requires a.Valid() && b.Valid() && SameAllocation(a, b)
    ensures SameAllocation(Resizing(a, size), Resizing(b, size))
  {
    hide SameLive, SameHistory, ClearArea, Resize;
    var n := |a.data|;
    if size < n {
      SameClear(a, b, a.address + size, n - size);
      SameResize(ClearArea(a, a.address + size, n - size), ClearArea(b, a.address + size, n - size), size);
    } else {
      SameResize(a, b, size);
    }
  }

  lemma UnresizingRestores(a: Allocation, b: Allocation, size: nat)
    requires a.Valid() && b.Valid() && SameAllocation(a, Resizing(b, size))
    ensures CanUnresize(a, |b.data|) && SameAllocation(Unresizing(a, |b.data|), b)
  {
    hide SameSaved, Save, Uniform, CanRewind, RewindArea;
    var n := |b.data|;
    if size < n {
      ClearSaves(b, b.address + size, n - size);
      assert SavedOver(Resize(a, n), b, b.address + size, n - size);
      RewindRestores(Resize(a, n), b, b.address + size, n - size);
    }
  }

  lemma ResizeRespects(m: Memory, n: Memory, a: nat, current: nat, size: nat)
    requires m.Valid() && n.Valid() && SameMemory(m, n) && CanDo(n, Realloc(a, current, size))
    ensures CanDo(m, Realloc(a, current, size))
    ensures SameMemory(Do(m, Realloc(a, current, size)), Do(n, Realloc(a, current, size)))
  {
    if current == 0 {
      AllocationRespects(m, n, Add(a, size));
    } else if size == 0 {
      AllocationRespects(m, n, Remove(a, current));
    } else {
      SameResizing(m.allocations[a], n.allocations[a], size);
      SameWith(m, n, a, Resizing(m.allocations[a], size), Resizing(n.allocations[a], size));
    }
  }

  lemma BlockRespects(m: Memory, n: Memory, a: nat, data: seq<Byte>)
    requires m.Valid() && n.Valid() && SameMemory(m, n) && CanDo(n, Block(a, data))
    ensures CanDo(m, Block(a, data)) && SameMemory(Do(m, Block(a, data)), Do(n, Block(a, data)))
  {
    SameLookup(m, n, a, |data|);
    var k := m.Candidate(a).value;
    var x, y := ClearArea(m.allocations[k], a, |data|), ClearArea(n.allocations[k], a, |data|);
    SameClear(m.allocations[k], n.allocations[k], a, |data|);
    SameSet(x, y, a, data, data, Fill(|data|, 255));
    SameWith(m, n, k, SetArea(x, a, data, Fill(|data|, 255)), SetArea(y, a, data, Fill(|data|, 255)));
  }

  lemma CopyRespects(m: Memory, n: Memory, s: nat, d: nat, size: nat)
    requires m.Valid() && n.Valid() && SameMemory(m, n) && CanDo(n, Copy(s, d, size))
    ensures CanDo(m, Copy(s, d, size)) && SameMemory(Do(m, Copy(s, d, size)), Do(n, Copy(s, d, size)))
  {
    SameLookup(m, n, s, size);
    SameLookup(m, n, d, size);
    var k, i := m.Candidate(d).value, m.Candidate(s).value;
    SameClear(m.allocations[k], n.allocations[k], d, size);
    var mc := With(m, k, ClearArea(m.allocations[k], d, size));
    var nc := With(n, k, ClearArea(n.allocations[k], d, size));
    SameWith(m, n, k, mc.allocations[k], nc.allocations[k]);
    PasteRespects(mc, nc, i, s - i, k, d, size);
  }

  /** The second half of a copy: paste an area of one allocation into another. */
  lemma PasteRespects(m: Memory, n: Memory, i: nat, o: nat, k: nat, d: nat, size: nat)
    requires m.Valid() && n.Valid() && SameMemory(m, n) && i in n.allocations && k in n.allocations
    requires o + size <= |n.allocations[i].data| && n.allocations[k].Contains(d, size)
    ensures SameMemory(Paste(m, i, o, k, d, size), Paste(n, i, o, k, d, size))
  {
    var x, y := m.allocations[i], n.allocations[i];
    assert SameLive(x.data[o..o + size], y.data[o..o + size], x.init[o..o + size]);
    SameSet(m.allocations[k], n.allocations[k], d, x.data[o..o + size], y.data[o..o + size], x.init[o..o + size]);
    SameWith(m, n, k, SetArea(m.allocations[k], d, x.data[o..o + size], x.init[o..o + size]),
             SetArea(n.allocations[k], d, y.data[o..o + size], y.init[o..o + size]));
  }

  lemma ClearRespects(m: Memory, n: Memory, a: nat, size: nat)
    requires m.Valid() && n.Valid() && SameMemory(m, n) && CanDo(n, Clear(a, size))
    ensures CanDo(m, Clear(a, size)) && SameMemory(Do(m, Clear(a, size)), Do(n, Clear(a, size)))
  {
    SameLookup(m, n, a, size);
    if m.Holds(a, size) {
      var k := m.Candidate(a).value;
      SameClear(m.allocations[k], n.allocations[k], a, size);
      SameWith(m, n, k, ClearArea(m.allocations[k], a, size), ClearArea(n.allocations[k], a, size));
    }
  }

  /** Every forward operation respects the equivalence, so redoing after undoing is sound. */
  lemma DoRespects(m: Memory, n: Memory, op: Op)
    requires m.Valid() && n.Valid() && SameMemory(m, n) && CanDo(n, op)
    ensures CanDo(m, op) && SameMemory(Do(m, op), Do(n, op))
  {
    match op
    case Add(_, _) => AllocationRespects(m, n, op);
    case Remove(_, _) => AllocationRespects(m, n, op);
    case Realloc(a, current, size) => ResizeRespects(m, n, a, current, size);
    case Block(a, data) => BlockRespects(m, n, a, data);
    case Copy(s, d, size) => CopyRespects(m, n, s, d, size);
    case Clear(a, size) => ClearRespects(m, n, a, size);
  }

  /** `p` is `n` except for a saved area in the allocation that holds it. */
  ghost predicate SavedAt(p: Memory, n: Memory, start: nat, length: nat)
    requires n.Valid()
  {
    && n.Holds(start, length)
    && p.previous == n.previous
    && p.allocations.Keys == n.allocations.Keys
    && var k := n.Candidate(start).value;
       && (forall a | a in n.allocations && a != k :: p.allocations[a] == n.allocations[a])
       && SavedOver(p.allocations[k], n.allocations[k], start, length)
  }

  lemma RewindAtRestores(m: Memory, n: Memory, p: Memory, start: nat, length: nat)
    requires m.Valid() && n.Valid() && p.Valid() && SameMemory(m, p) && SavedAt(p, n, start, length)
    ensures CanRewindAt(m, start, length) && SameMemory(RewindAt(m, start, length), n)
  {
    var k := n.Candidate(start).value;
    assert m.Candidate(start) == n.Candidate(start);
    SavedOverSame(m.allocations[k], p.allocations[k], n.allocations[k], start, length);
    RewindRestores(m.allocations[k], n.allocations[k], start, length);
  }

  lemma AllocationRestores(m: Memory, n: Memory, op: Op)
    requires m.Valid() && n.Valid() && CanDo(n, op) && (op.Add? || op.Remove?) && SameMemory(m, Do(n, op))
    ensures CanUndo(m, op) && SameMemory(Undo(m, op), n)
  {
  }

  lemma ResizeRestores(m: Memory, n: Memory, a: nat, current: nat, size: nat)
    requires m.Valid() && n.Valid()
    requires CanDo(n, Realloc(a, current, size)) && SameMemory(m, Do(n, Realloc(a, current, size)))
    ensures CanUndo(m, Realloc(a, current, size)) && SameMemory(Undo(m, Realloc(a, current, size)), n)
  {
    if current == 0 {
      AllocationRestores(m, n, Add(a, size));
    } else if size == 0 {
      AllocationRestores(m, n, Remove(a, current));
    } else {
      UnresizingRestores(m.allocations[a], n.allocations[a], size);
    }
  }

  lemma BlockSaves(n: Memory, a: nat, data: seq<Byte>)
    requires n.Valid() && CanDo(n, Block(a, data))
    ensures SavedAt(Do(n, Block(a, data)), n, a, |data|)
  {
    var k := n.Candidate(a).value;
    ClearSaves(n.allocations[k], a, |data|);
    SavedOverSet(ClearArea(n.allocations[k], a, |data|), n.allocations[k], a, data, Fill(|data|, 255));
  }

  lemma CopySaves(n: Memory, s: nat, d: nat, size: nat)
    requires n.Valid() && CanDo(n, Copy(s, d, size))
    ensures SavedAt(Do(n, Copy(s, d, size)), n, d, size)
  {
    hide SameHistory, Uniform;
    var i, k := n.Candidate(s).value, n.Candidate(d).value;
    ClearSaves(n.allocations[k], d, size);
    var c := With(n, k, ClearArea(n.allocations[k], d, size));
    var src, o := c.allocations[i], s - i;
    SavedOverSet(c.allocations[k], n.allocations[k], d, src.data[o..o + size], src.init[o..o + size]);
  }

  lemma ClearRestores(m: Memory, n: Memory, a: nat, size: nat)
    requires m.Valid() && n.Valid() && CanDo(n, Clear(a, size)) && SameMemory(m, Do(n, Clear(a, size)))
    ensures CanUndo(m, Clear(a, size)) && SameMemory(Undo(m, Clear(a, size)), n)
  {
    if n.Holds(a, size) {
      ClearSaves(n.allocations[n.Candidate(a).value], a, size);
      RewindAtRestores(m, n, Do(n, Clear(a, size)), a, size);
    } else {
      SameLookup(m, n, a, size);
    }
  }

  /** Whatever is equivalent to the state after an operation is taken, by the source's inverse of
      that operation, to something equivalent to the state before it. */
  lemma UndoRestores(m: Memory, n: Memory, op: Op)
    requires m.Valid() && n.Valid() && CanDo(n, op) && SameMemory(m, Do(n, op))
    ensures CanUndo(m, op) && SameMemory(Undo(m, op), n)
  {
    match op
    case Add(_, _) => AllocationRestores(m, n, op);
    case Remove(_, _) => AllocationRestores(m, n, op);
    case Realloc(a, current, size) => ResizeRestores(m, n, a, current, size);
    case Block(a, data) => BlockSaves(n, a, data); RewindAtRestores(m, n, Do(n, op), a, |data|);
    case Copy(s, d, size) => CopySaves(n, s, d, size); RewindAtRestores(m, n, Do(n, op), d, size);
    case Clear(a, size) => ClearRestores(m, n, a, size);
  }

  // ---------------------------------------------------------------- runs of operations

  ghost predicate CanDoAll(m: Memory, ops: seq<Op>)
    requires m.Valid()
    decreases |ops|
  {
    ops == [] || (CanDo(m, ops[0]) && CanDoAll(Do(m, ops[0]), ops[1..]))
  }

  ghost function DoAll(m: Memory, ops: seq<Op>): (r: Memory)
    requires m.Valid() && CanDoAll(m, ops)
    ensures r.Valid()
    decreases |ops|
  {
    if ops == [] then m else DoAll(Do(m, ops[0]), ops[1..])
  }

  /** The inverses of a run, taken from its last operation to its first. */
  ghost predicate CanUndoAll(m: Memory, ops: seq<Op>)
    requires m.Valid()
    decreases |ops|, 0
  {
    ops == [] || (CanUndoAll(m, ops[1..]) && CanUndo(UndoAll(m, ops[1..]), ops[0]))
  }

  ghost function UndoAll(m: Memory, ops: seq<Op>): (r: Memory)
    requires m.Valid() && CanUndoAll(m, ops)
    ensures r.Valid()
    decreases |ops|, 1
  {
    if ops == [] then m else Undo(UndoAll(m, ops[1..]), ops[0])
  }

  /** Undoing any run of operations, from anything equivalent to the state that the run left,
      meets every assertion on the way and leads to something equivalent to where the run began. */
  lemma {:induction false} UndoAllRestores(m: Memory, n: Memory, ops: seq<Op>)
    requires m.Valid() && n.Valid() && CanDoAll(n, ops) && SameMemory(m, DoAll(n, ops))
    ensures CanUndoAll(m, ops) && SameMemory(UndoAll(m, ops), n)
    decreases |ops|
  {
    hide Do, Undo, CanDo, CanUndo, SameMemory;
    if ops == [] {
    } else {
      UndoAllRestores(m, Do(n, ops[0]), ops[1..]);
      UndoRestores(UndoAll(m, ops[1..]), n, ops[0]);
    }
  }

  /** A run can be repeated from any equivalent state, to an equivalent end. */
  lemma {:induction false} DoAllRespects(m: Memory, n: Memory, ops: seq<Op>)
    requires m.Valid() && n.Valid() && CanDoAll(n, ops) && SameMemory(m, n)
    ensures CanDoAll(m, ops) && SameMemory(DoAll(m, ops), DoAll(n, ops))
    decreases |ops|
  {
    hide Do, CanDo, SameMemory;
    if ops == [] {
    } else {
      DoRespects(m, n, ops[0]);
      DoAllRespects(Do(m, ops[0]), Do(n, ops[0]), ops[1..]);
    }
  }

  /** Undo a run and do it again: the end is the one that was left, up to dead bytes. */
  lemma RedoAfterUndo(m: Memory, n: Memory, ops: seq<Op>)
    requires m.Valid() && n.Valid() && CanDoAll(n, ops) && SameMemory(m, DoAll(n, ops))
    ensures CanUndoAll(m, ops) && CanDoAll(UndoAll(m, ops), ops)
    ensures SameMemory(DoAll(UndoAll(m, ops), ops), DoAll(n, ops))
  {
    UndoAllRestores(m, n, ops);
    DoAllRespects(UndoAll(m, ops), n, ops);
  }
}
