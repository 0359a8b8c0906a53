/** Looking up an address by stepping back from the first key above it, when the areas are apart. */
module Lookup {
  import opened Common
  import opened MemoryModel
  import opened ProcessModel

  /** Areas by address and size: none reaches beyond the start of the next. */
  ghost predicate Apart(sizes: map<nat, nat>) {
    forall a, b | a in sizes && b in sizes && a < b :: a + sizes[a] <= b
  }

  /** The area found holds the bytes from `start` on if and only if some area does, and then it is the only
      one. */
  lemma FloorFinds(sizes: map<nat, nat>, start: nat, length: nat)
    requires Apart(sizes) && length > 0
    ensures var k := Floor(sizes.Keys, start);
            && ((k.Some? && start + length <= k.value + sizes[k.value]) <==>
                  exists a :: a in sizes && a <= start && start + length <= a + sizes[a])
            && (forall a | a in sizes && a <= start && start + length <= a + sizes[a] :: k == Some(a))
  {
  }

  ghost function Sizes(m: Memory): (r: map<nat, nat>)
    ensures r.Keys == m.allocations.Keys
    ensures forall a | a in m.allocations :: r[a] == |m.allocations[a].data|
  {
    map a | a in m.allocations :: |m.allocations[a].data|
  }

  /** No allocation is empty, and none overlaps another. */
  ghost predicate Disjoint(m: Memory) {
    Apart(Sizes(m)) && forall a | a in m.allocations :: |m.allocations[a].data| > 0
  }

  /** Space for an area of `size` bytes at `address`, next to the other areas. */
  ghost predicate Space(sizes: map<nat, nat>, address: nat, size: nat) {
    && (forall a | a in sizes && a < address :: a + sizes[a] <= address)
    && (forall a | a in sizes && address < a :: address + size <= a)
  }

  /** New and grown allocations do not overlap existing ones. */
  ghost predicate Fits(m: Memory, op: Op) {
    match op
    case Add(a, size) => size > 0 ==> Space(Sizes(m), a, size)
    case Realloc(a, _, size) => size > 0 ==> Space(Sizes(m) - {a}, a, size)
    case _ => true
  }

  /** The allocation that one operation adds, removes or resizes; the rest stay as they are. */
  function SizesAfter(sizes: map<nat, nat>, op: Op): map<nat, nat> {
    match op
    case Add(a, size) => if size == 0 then sizes else sizes[a := size]
    case Remove(a, size) => if size == 0 then sizes else sizes - {a}
    case Realloc(a, current, size) =>
      if size == 0 then (if current == 0 then sizes else sizes - {a}) else sizes[a := size]
    case _ => sizes
  }

  lemma WithSize(m: Memory, k: nat, a: Allocation)
    requires m.Valid() && k in m.allocations && a.Valid() && a.address == k
    ensures Sizes(With(m, k, a)) == Sizes(m)[k := |a.data|]
  {
  }

  lemma InsertSize(m: Memory, a: nat, size: nat)
    requires m.Valid()
    ensures Sizes(Insert(m, NewAllocation(a, size))) == Sizes(m)[a := size]
  {
  }

  lemma RetireSize(m: Memory, a: nat)
    requires m.Valid() && a in m.allocations
    ensures Sizes(Retire(m, a)) == Sizes(m) - {a}
  {
  }

  lemma ReallocSizes(m: Memory, a: nat, current: nat, size: nat)
    requires m.Valid() && CanDo(m, Realloc(a, current, size))
    ensures Sizes(Do(m, Realloc(a, current, size))) == SizesAfter(Sizes(m), Realloc(a, current, size))
  {
    hide Resizing, Insert, Retire, With, NewAllocation;
    if current == 0 {
      InsertSize(m, a, size);
    } else if size == 0 {
      RetireSize(m, a);
    } else {
      WithSize(m, a, Resizing(m.allocations[a], size));
    }
  }

  lemma CopySizes(m: Memory, s: nat, d: nat, size: nat)
    requires m.Valid() && CanDo(m, Copy(s, d, size))
    ensures Sizes(Do(m, Copy(s, d, size))) == Sizes(m)
  {
    hide ClearArea, SetArea;
  }

  lemma BlockSizes(m: Memory, a: nat, data: seq<Byte>)
    requires m.Valid() && CanDo(m, Block(a, data))
    ensures Sizes(Do(m, Block(a, data))) == Sizes(m)
  {
    hide ClearArea, SetArea;
  }

  lemma ClearSizes(m: Memory, a: nat, size: nat)
    requires m.Valid() && CanDo(m, Clear(a, size))
    ensures Sizes(Do(m, Clear(a, size))) == Sizes(m)
  {
    hide ClearArea;
  }

  lemma ChangedSizes(m: Memory, op: Op)
    requires m.Valid() && CanDo(m, op)
    ensures Sizes(Do(m, op)) == SizesAfter(Sizes(m), op)
  {
    hide Sizes, With, DoCopy;
    match op
    case Add(a, size) => InsertSize(m, a, size);
    case Remove(a, size) => if size > 0 { RetireSize(m, a); }
    case Realloc(a, current, size) => ReallocSizes(m, a, current, size);
    case Block(a, data) => BlockSizes(m, a, data);
    case Copy(s, d, size) => CopySizes(m, s, d, size);
    case Clear(a, size) => ClearSizes(m, a, size);
  }

  /** If new allocations do not overlap existing ones, no operation makes any two overlap. */
  lemma StaysDisjoint(m: Memory, op: Op)
    requires m.Valid() && CanDo(m, op) && Disjoint(m) && Fits(m, op)
    ensures Disjoint(Do(m, op))
  {
    hide Do, CanDo, Sizes, Space;
    ChangedSizes(m, op);
    var s, r := Sizes(m), Sizes(Do(m, op));
    forall a | a in r ensures r[a] > 0 {
      assert a in s ==> s[a] > 0;
    }
    if op.Realloc? && op.size > 0 {
      assert s[op.address := op.size] == (s - {op.address})[op.address := op.size];
      SpaceApart(s - {op.address}, op.address, op.size);
    } else if op.Add? && op.size > 0 {
      SpaceApart(s, op.address, op.size);
    }
  }

  lemma SpaceApart(sizes: map<nat, nat>, a: nat, size: nat)
    requires Apart(sizes) && Space(sizes, a, size)
    ensures Apart(sizes[a := size])
  {
  }

  /** Undoing keeps them apart as well, since it returns to a memory that was. */
  lemma UndoStaysDisjoint(m: Memory, n: Memory, op: Op)
    requires m.Valid() && n.Valid() && CanDo(n, op) && SameMemory(m, Do(n, op)) && Disjoint(n)
    ensures CanUndo(m, op) && Disjoint(Undo(m, op))
  {
    hide Do, Undo, CanDo, CanUndo;
    UndoRestores(m, n, op);
    SameSizes(Undo(m, op), n);
  }

  lemma SameSizes(m: Memory, n: Memory)
    requires SameMemory(m, n)
    ensures Sizes(m) == Sizes(n)
  {
    forall a | a in m.allocations ensures Sizes(m)[a] == Sizes(n)[a] {
      assert SameAllocation(m.allocations[a], n.allocations[a]);
    }
  }

  /** The lookup of memory is exact: it holds an area exactly when some allocation contains it. */
  lemma LookupIsExact(m: Memory, start: nat, length: nat)
    requires m.Valid() && Disjoint(m) && length > 0
    ensures m.Holds(start, length) <==> exists a :: a in m.allocations && m.allocations[a].Contains(start, length)
    ensures forall a | a in m.allocations && m.allocations[a].Contains(start, length) :: m.Candidate(start) == Some(a)
  {
    FloorFinds(Sizes(m), start, length);
    forall a | a in m.allocations && m.allocations[a].Contains(start, length)
      ensures a in Sizes(m) && a <= start && start + length <= a + Sizes(m)[a]
    {
    }
  }

  // ---------------------------------------------------------------- every run

  /** A run makes operations and takes back the last one that has not been taken back. */
  datatype Turn = Make(op: Op) | TakeBack

  /** The turns lead from `m`, where the operations of `done` are in effect, to `r`. */
  ghost predicate Reaches(m: Memory, done: seq<Op>, turns: seq<Turn>, r: Memory)
    requires m.Valid()
    decreases turns
  {
    if turns == [] then r == m
    else match turns[0]
      case Make(op) => CanDo(m, op) && Fits(m, op) && Reaches(Do(m, op), done + [op], turns[1..], r)
      case TakeBack =>
        && done != [] && CanUndo(m, done[|done| - 1])
        && Reaches(Undo(m, done[|done| - 1]), done[..|done| - 1], turns[1..], r)
  }

  /** The memories that the operations in effect have come through, each up to dead bytes. */
  ghost predicate Trail(trail: seq<Memory>, done: seq<Op>, m: Memory) {
    && |trail| == |done| && m.Valid() && Disjoint(m)
    && forall k | 0 <= k < |done| :: TrailStep(trail[k], done[k], Next(trail, m, k))
  }

  ghost function Next(trail: seq<Memory>, m: Memory, k: nat): Memory {
    if k + 1 < |trail| then trail[k + 1] else m
  }

  ghost predicate TrailStep(n: Memory, op: Op, m: Memory) {
    n.Valid() && Disjoint(n) && m.Valid() && CanDo(n, op) && SameMemory(m, Do(n, op))
  }

  lemma SameItself(m: Memory)
    ensures m.Valid() ==> SameMemory(m, m)
  {
  }

  lemma SameTransitive(m: Memory, n: Memory, o: Memory)
    requires SameMemory(m, n) && SameMemory(n, o)
    ensures SameMemory(m, o)
  {
    hide SameAllocation;
    forall a | a in m.allocations ensures SameAllocation(m.allocations[a], o.allocations[a]) {
      AllocationTransitive(m.allocations[a], n.allocations[a], o.allocations[a]);
    }
    forall k | 0 <= k < |m.previous| ensures SameAllocation(m.previous[k], o.previous[k]) {
      AllocationTransitive(m.previous[k], n.previous[k], o.previous[k]);
    }
  }

  lemma AllocationTransitive(a: Allocation, b: Allocation, c: Allocation)
    requires SameAllocation(a, b) && SameAllocation(b, c)
    ensures SameAllocation(a, c)
  {
    hide SameSaved;
    forall k | 0 <= k < |a.history| ensures SameSaved(a.history[k], c.history[k]) {
      SavedTransitive(a.history[k], b.history[k], c.history[k]);
    }
  }

  lemma SavedTransitive(s: Saved, t: Saved, u: Saved)
    requires SameSaved(s, t) && SameSaved(t, u)
    ensures SameSaved(s, u)
  {
  }

  lemma TrailGrows(trail: seq<Memory>, done: seq<Op>, m: Memory, op: Op)
    requires Trail(trail, done, m) && CanDo(m, op) && Fits(m, op)
    ensures Trail(trail + [m], done + [op], Do(m, op))
  {
    hide Do, CanDo, Fits, Disjoint, SameMemory, TrailStep;
    StaysDisjoint(m, op);
    SameItself(Do(m, op));
    var more, all := trail + [m], done + [op];
    forall k | 0 <= k < |all| ensures TrailStep(more[k], all[k], Next(more, Do(m, op), k)) {
      if k == |done| {
        FirstStep(m, op);
      } else {
        assert TrailStep(trail[k], done[k], Next(trail, m, k));
      }
    }
  }

  lemma FirstStep(m: Memory, op: Op)
    requires m.Valid() && Disjoint(m) && CanDo(m, op)
    ensures TrailStep(m, op, Do(m, op))
  {
    hide Do, CanDo, Disjoint;
    SameItself(Do(m, op));
  }

  /** The last operation can always be taken back. */
  lemma TrailShrinks(trail: seq<Memory>, done: seq<Op>, m: Memory)
    requires Trail(trail, done, m) && done != []
    ensures CanUndo(m, done[|done| - 1])
    ensures Trail(trail[..|trail| - 1], done[..|done| - 1], Undo(m, done[|done| - 1]))
  {
    hide Do, CanDo, Undo, CanUndo, Disjoint, SameMemory;
    var last := |done| - 1;
    var n, op := trail[last], done[last];
    assert TrailStep(n, op, Next(trail, m, last));
    UndoRestores(m, n, op);
    UndoStaysDisjoint(m, n, op);
    var r := Undo(m, op);
    var less, fewer := trail[..last], done[..last];
    forall k | 0 <= k < last ensures TrailStep(less[k], fewer[k], Next(less, r, k)) {
      assert TrailStep(trail[k], done[k], Next(trail, m, k));
      if k + 1 == last {
        SameTransitive(r, n, Do(trail[k], done[k]));
      }
    }
  }

  lemma {:induction false} RunStaysDisjoint(trail: seq<Memory>, m: Memory, done: seq<Op>, turns: seq<Turn>, r: Memory)
    requires Trail(trail, done, m) && Reaches(m, done, turns, r)
    ensures r.Valid() && Disjoint(r)
    decreases turns
  {
    hide Do, CanDo, Undo, CanUndo, Fits, Trail, Disjoint;
    TrailEnd(trail, done, m);
    if turns != [] {
      match turns[0]
      case Make(op) =>
        TrailGrows(trail, done, m, op);
        RunStaysDisjoint(trail + [m], Do(m, op), done + [op], turns[1..], r);
      case TakeBack =>
        TrailShrinks(trail, done, m);
        RunStaysDisjoint(trail[..|trail| - 1], Undo(m, done[|done| - 1]), done[..|done| - 1], turns[1..], r);
    }
  }

  lemma TrailEnd(trail: seq<Memory>, done: seq<Op>, m: Memory)
    requires Trail(trail, done, m)
    ensures m.Valid() && Disjoint(m) && |trail| == |done|
  {
  }

  /** Whatever is done and taken back from the empty memory on, if new and grown allocations do not overlap existing
      ones: allocations are non-empty and apart, and every lookup finds what a linear search finds. */
  lemma EveryLookupIsExact(turns: seq<Turn>, r: Memory, start: nat, length: nat)
    requires Reaches(EmptyMemory, [], turns, r) && length > 0
    ensures r.Valid() && Disjoint(r)
    ensures r.Holds(start, length) <==> exists a :: a in r.allocations && r.allocations[a].Contains(start, length)
    ensures forall a | a in r.allocations && r.allocations[a].Contains(start, length) :: r.Candidate(start) == Some(a)
  {
    RunStaysDisjoint([], EmptyMemory, [], turns, r);
    LookupIsExact(r, start, length);
  }

  /** The dynamic allocation that contains an address, if any: exact even with empty allocations among them. */
  method ContainingMalloc(mallocs: map<nat, nat>, address: nat) returns (r: Option<nat>)
    requires Apart(mallocs)
    ensures r.Some? <==> exists a :: a in mallocs && a <= address < a + mallocs[a]
    ensures r.Some? ==> r.value in mallocs && r.value <= address < r.value + mallocs[r.value]
  {
    FloorFinds(mallocs, address, 1);
    r := Floor(mallocs.Keys, address);
    if r.Some? && r.value + mallocs[r.value] <= address {
      r := None;
    }
  }
}
