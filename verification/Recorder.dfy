/** The recorder's shadow of memory against the memory that is replayed from the events written beside it.
    The shadow keeps one byte of initialization for each byte of every known area. */
module Recorder {
  import opened Common
  import M = MemoryModel

  // The two bytes of the shadow.
  const INITIALIZED: Byte := 0
  const UNINITIALIZED: Byte := 255

  /** The shadow of each area, and the sizes of the dynamic allocations among them. */
  datatype Shadow = Shadow(areas: map<nat, seq<Byte>>, dynamic: map<nat, nat>)

  /** The bytes of the recorded program, which the recorder reads. */
  type Ram = nat -> Byte

  datatype Call =
    | Malloc(address: nat, size: nat)
    | Realloc(address: nat, size: nat)
    | Free(address: nat)
    | FreeAndClear(address: nat)
    | UntypedState(address: nat, data: seq<Byte>)
    | Memmove(source: nat, destination: nat, size: nat)
    | AreaAdd(address: nat, size: nat)
    | AreaRemove(address: nat, size: nat)
    | Global(address: nat, data: seq<Byte>)
    | FunctionEnd(byVals: seq<(nat, nat)>, allocas: seq<(nat, nat)>)

  // ---------------------------------------------------------------- the shadow

  /** No area reaches the start of the next; an area may be empty. */
  ghost predicate Separate(areas: map<nat, seq<Byte>>) {
    forall a, b | a in areas && b in areas && a < b :: a + |areas[a]| <= b
  }

  /** A new area does not overlap any other. */
  ghost predicate IsFree(areas: map<nat, seq<Byte>>, address: nat, size: nat) {
    && address !in areas
    && (forall a | a in areas && a < address :: a + |areas[a]| <= address)
    && (forall a | a in areas && address < a :: address + size <= a)
  }

  ghost predicate ValidShadow(s: Shadow) {
    && Separate(s.areas)
    && forall a | a in s.dynamic :: a in s.areas && |s.areas[a]| == s.dynamic[a]
  }

  /** The area found by stepping back from the first area above `start`; the recorder asserts that it
      contains what it is asked about. */
  predicate Contains(s: Shadow, start: nat, length: nat) {
    var a := Floor(s.areas.Keys, start);
    a.Some? && start + length <= a.value + |s.areas[a.value]|
  }

  function AreaAt(s: Shadow, start: nat, length: nat): (a: nat)
    requires Contains(s, start, length)
    ensures a in s.areas && a <= start && start + length <= a + |s.areas[a]|
  {
    Floor(s.areas.Keys, start).value
  }

  function Unknown(size: nat): seq<Byte> { Fill(size, UNINITIALIZED) }

  function Resized(shadow: seq<Byte>, size: nat): (r: seq<Byte>)
    ensures |r| == size
  {
    if size <= |shadow| then shadow[..size] else shadow + Unknown(size - |shadow|)
  }

  /** What a move copies is not lost when the destination is cleared first: no byte of an overlap is
      initialized. Areas that are apart have no overlap. */
  predicate KeepsSource(s: Shadow, from: nat, to: nat, size: nat)
    requires Contains(s, from, size)
  {
    forall k | 0 <= k < size && to <= from + k < to + size :: ShadowBytes(s, from, size)[k] == UNINITIALIZED
  }

  /** What the recorder asserts or the allocator of the program promises before each call, and that a move keeps
      its source. */
  ghost predicate CanRecord(s: Shadow, c: Call) {
    match c
    case Malloc(a, size) => IsFree(s.areas, a, size) && a !in s.dynamic
    case Realloc(a, size) => a in s.dynamic && a in s.areas && IsFree(s.areas - {a}, a, size)
    case Free(a) => a in s.dynamic && a in s.areas
    case FreeAndClear(a) => a in s.dynamic && a in s.areas
    case UntypedState(a, data) => data != [] ==> Contains(s, a, |data|)
    case Memmove(from, to, size) =>
      size > 0 ==> Contains(s, from, size) && Contains(s, to, size) && KeepsSource(s, from, to, size)
    case AreaAdd(a, size) => size > 0 && IsFree(s.areas, a, size)
    case AreaRemove(a, size) => IsOnStack(s, a, size)
    case Global(a, data) => data != [] && IsFree(s.areas, a, |data|)
    case FunctionEnd(byVals, allocas) => CanRemoveEach(s, byVals + allocas)
  }

  /** An area that is neither empty nor dynamically allocated. */
  predicate IsOnStack(s: Shadow, a: nat, size: nat) {
    a in s.areas && a !in s.dynamic && |s.areas[a]| == size > 0
  }

  /** The areas are on the stack, none of them empty, and no two the same. */
  ghost predicate CanRemoveEach(s: Shadow, areas: seq<(nat, nat)>) {
    && (forall i | 0 <= i < |areas| :: IsOnStack(s, areas[i].0, areas[i].1))
    && (forall i, j | 0 <= i < j < |areas| :: areas[i].0 != areas[j].0)
  }

  function Without(s: Shadow, a: nat): Shadow { s.(areas := s.areas - {a}) }

  function RemoveEach(s: Shadow, areas: seq<(nat, nat)>): Shadow
    decreases |areas|
  {
    if areas == [] then s else RemoveEach(Without(s, areas[0].0), areas[1..])
  }

  function SetShadow(s: Shadow, start: nat, bytes: seq<Byte>): Shadow
    requires Contains(s, start, |bytes|)
  {
    var a := AreaAt(s, start, |bytes|);
    s.(areas := s.areas[a := Splice(s.areas[a], start - a, bytes)])
  }

  function ShadowBytes(s: Shadow, start: nat, length: nat): (r: seq<Byte>)
    requires Contains(s, start, length)
    ensures |r| == length
  {
    var a := AreaAt(s, start, length);
    s.areas[a][start - a..start - a + length]
  }

  ghost function Record(s: Shadow, c: Call): Shadow
    requires CanRecord(s, c)
  {
    match c
    case Malloc(a, size) => Shadow(s.areas[a := Unknown(size)], s.dynamic[a := size])
    case Realloc(a, size) =>
      // The end of a shrinking area is cleared before it is cut off.
      var shadow := s.areas[a];
      var cleared := if size < |shadow| then Splice(shadow, size, Unknown(|shadow| - size)) else shadow;
      Shadow(s.areas[a := Resized(cleared, size)], s.dynamic[a := size])
    case Free(a) => Shadow(s.areas - {a}, s.dynamic - {a})
    case FreeAndClear(a) => Shadow(s.areas - {a}, s.dynamic - {a})
    case UntypedState(a, data) => if data == [] then s else SetShadow(s, a, Fill(|data|, INITIALIZED))
    case Memmove(from, to, size) => if size == 0 then s else SetShadow(s, to, ShadowBytes(s, from, size))
    case AreaAdd(a, size) => s.(areas := s.areas[a := Unknown(size)])
    case AreaRemove(a, _) => Without(s, a)
    case Global(a, data) => s.(areas := s.areas[a := Fill(|data|, INITIALIZED)])
    case FunctionEnd(byVals, allocas) => RemoveEach(s, byVals + allocas)
  }

  /** The program's own bytes once it has done what is recorded. */
  ghost function RamAfter(ram: Ram, c: Call): Ram {
    match c
    case UntypedState(a, data) => (x: nat) => if a <= x < a + |data| then data[x - a] else ram(x)
    case Memmove(from, to, size) => (x: nat) => if to <= x < to + size then ram(from + (x - to)) else ram(x)
    case Global(a, data) => (x: nat) => if a <= x < a + |data| then data[x - a] else ram(x)
    case _ => ram
  }

  // ---------------------------------------------------------------- the replayed memory

  /** The operations on memory that replaying the written events amounts to. */
  function Written(s: Shadow, c: Call): seq<M.Op>
    requires (c.Realloc? || c.Free? || c.FreeAndClear?) ==> c.address in s.dynamic
  {
    match c
    case Malloc(a, size) => [M.Add(a, size)]
    case Realloc(a, size) => [M.Realloc(a, s.dynamic[a], size)]
    case Free(a) => [M.Remove(a, s.dynamic[a])]
    case FreeAndClear(a) =>
      [M.Remove(a, s.dynamic[a])] + if s.dynamic[a] == 0 then [] else [M.Clear(a, s.dynamic[a])]
    case UntypedState(a, data) => if data == [] then [] else [M.Block(a, data)]
    case Memmove(from, to, size) => if size == 0 then [] else [M.Copy(from, to, size)]
    case AreaAdd(a, size) => [M.Add(a, size)]
    case AreaRemove(a, size) => [M.Remove(a, size)]
    case Global(a, data) => [M.Add(a, |data|), M.Block(a, data)]
    // The end of a function removes its areas; clear events for them follow.
    case FunctionEnd(byVals, allocas) => Removes(byVals + allocas) + Clears(allocas + byVals)
  }

  function Removes(areas: seq<(nat, nat)>): (r: seq<M.Op>)
    ensures |r| == |areas|
  {
    seq(|areas|, i requires 0 <= i < |areas| => M.Remove(areas[i].0, areas[i].1))
  }

  function Clears(areas: seq<(nat, nat)>): (r: seq<M.Op>)
    ensures |r| == |areas|
  {
    seq(|areas|, i requires 0 <= i < |areas| => M.Clear(areas[i].0, areas[i].1))
  }

  /** One area: the same bytes are initialized, and those hold what the program holds. */
  ghost predicate AreaMatches(shadow: seq<Byte>, a: M.Allocation, ram: Ram) {
    && |shadow| == |a.data| == |a.init|
    && forall k | 0 <= k < |shadow| ::
         if shadow[k] == INITIALIZED then a.init[k] == 255 && a.data[k] == ram(a.address + k)
         else shadow[k] == UNINITIALIZED && a.init[k] == 0
  }

  /** Every non-empty area of the shadow is an allocation of the replayed memory, and there are no others. */
  ghost predicate Matches(s: Shadow, m: M.Memory, ram: Ram) {
    && m.Valid() && ValidShadow(s)
    && (forall a | a in m.allocations :: a in s.areas && |s.areas[a]| > 0)
    && (forall a | a in s.areas && |s.areas[a]| > 0 ::
          a in m.allocations && AreaMatches(s.areas[a], m.allocations[a], ram))
  }

  /** Both lookups find the area of the shadow that contains an address. */
  lemma SameArea(s: Shadow, m: M.Memory, ram: Ram, start: nat, length: nat)
    requires Matches(s, m, ram) && length > 0 && Contains(s, start, length)
    ensures m.Candidate(start) == Some(AreaAt(s, start, length)) && m.Holds(start, length)
  {
    hide AreaMatches;
    var a := AreaAt(s, start, length);
    assert a in m.allocations;
    assert |m.allocations[a].data| == |s.areas[a]| by {
      SameSize(s, m, ram, a);
    }
  }

  lemma SameSize(s: Shadow, m: M.Memory, ram: Ram, a: nat)
    requires Matches(s, m, ram) && a in m.allocations
    ensures a in s.areas && |s.areas[a]| == |m.allocations[a].data| > 0 && m.allocations[a].address == a
  {
  }

  lemma DoOne(m: M.Memory, op: M.Op)
    requires m.Valid() && M.CanDo(m, op)
    ensures M.CanDoAll(m, [op]) && M.DoAll(m, [op]) == M.Do(m, op)
  {
    assert [op][1..] == [];
    assert M.DoAll(M.Do(m, op), []) == M.Do(m, op);
  }

  // ---------------------------------------------------------------- areas that come and go

  lemma NewMatches(a: nat, size: nat, ram: Ram)
    ensures AreaMatches(Unknown(size), M.NewAllocation(a, size), ram)
  {
  }

  lemma AddStaysSeparate(s: Shadow, a: nat, size: nat, dynamic: map<nat, nat>)
    requires ValidShadow(s) && IsFree(s.areas, a, size)
    requires dynamic == s.dynamic || dynamic == s.dynamic[a := size]
    ensures ValidShadow(Shadow(s.areas[a := Unknown(size)], dynamic))
  {
  }

  lemma AddMatches(s: Shadow, m: M.Memory, ram: Ram, a: nat, size: nat, dynamic: map<nat, nat>)
    requires Matches(s, m, ram) && IsFree(s.areas, a, size)
    requires dynamic == s.dynamic || dynamic == s.dynamic[a := size]
    ensures M.CanDo(m, M.Add(a, size))
    ensures Matches(Shadow(s.areas[a := Unknown(size)], dynamic), M.Do(m, M.Add(a, size)), ram)
  {
    hide AreaMatches, ValidShadow, Fill, Unknown;
    NewMatches(a, size, ram);
    AddStaysSeparate(s, a, size, dynamic);
    assert |Unknown(size)| == size by {
      UnknownSize(size);
    }
  }

  lemma UnknownSize(size: nat)
    ensures |Unknown(size)| == size
  {
  }

  lemma RemoveMatches(s: Shadow, m: M.Memory, ram: Ram, a: nat, dynamic: map<nat, nat>)
    requires Matches(s, m, ram) && a in s.areas
    requires dynamic == s.dynamic - {a}
    ensures M.CanDo(m, M.Remove(a, |s.areas[a]|))
    ensures Matches(Shadow(s.areas - {a}, dynamic), M.Do(m, M.Remove(a, |s.areas[a]|)), ram)
  {
    hide AreaMatches;
  }

  /** Clearing what has just been freed finds nothing, so that it changes nothing. */
  lemma ClearAfterFree(s: Shadow, m: M.Memory, ram: Ram, a: nat, size: nat)
    requires Matches(s, m, ram) && a in s.areas && |s.areas[a]| == size > 0
    ensures var freed := M.Do(m, M.Remove(a, size));
            M.CanDo(freed, M.Clear(a, size)) && M.Do(freed, M.Clear(a, size)) == freed
  {
    hide AreaMatches;
    var freed := M.Do(m, M.Remove(a, size));
    if freed.Holds(a, size) {
      SameSize(s, m, ram, freed.Candidate(a).value);
    }
  }

  // ---------------------------------------------------------------- reallocation

  lemma ResizedMatches(shadow: seq<Byte>, a: M.Allocation, ram: Ram, size: nat)
    requires a.Valid() && AreaMatches(shadow, a, ram) && size > 0
    ensures var cleared := if size < |shadow| then Splice(shadow, size, Unknown(|shadow| - size)) else shadow;
            AreaMatches(Resized(cleared, size), M.Resizing(a, size), ram)
  {
  }

  lemma ReallocMatches(s: Shadow, m: M.Memory, ram: Ram, a: nat, size: nat)
    requires Matches(s, m, ram) && CanRecord(s, Realloc(a, size))
    ensures M.CanDo(m, M.Realloc(a, s.dynamic[a], size))
    ensures Matches(Record(s, Realloc(a, size)), M.Do(m, M.Realloc(a, s.dynamic[a], size)), ram)
  {
    hide AreaMatches, Resized, M.Resizing;
    var current := s.dynamic[a];
    SeparateAfterResize(s, a, size);
    if current > 0 && size > 0 {
      ResizedMatches(s.areas[a], m.allocations[a], ram, size);
      ReallocGrows(s, m, ram, a, size);
    } else {
      ReallocEmpty(s, m, ram, a, size);
    }
  }

  lemma SeparateAfterResize(s: Shadow, a: nat, size: nat)
    requires ValidShadow(s) && CanRecord(s, Realloc(a, size))
    ensures ValidShadow(Record(s, Realloc(a, size)))
  {
    hide Resized;
    var r := Record(s, Realloc(a, size));
    forall x, y | x in r.areas && y in r.areas && x < y ensures x + |r.areas[x]| <= y {
      if x == a {
        assert y in s.areas - {a};
      } else if y == a {
        assert x in s.areas - {a};
      }
    }
  }

  lemma ReallocGrows(s: Shadow, m: M.Memory, ram: Ram, a: nat, size: nat)
    requires Matches(s, m, ram) && CanRecord(s, Realloc(a, size)) && s.dynamic[a] > 0 && size > 0
    requires ValidShadow(Record(s, Realloc(a, size)))
    requires a in m.allocations
    requires AreaMatches(Record(s, Realloc(a, size)).areas[a], M.Resizing(m.allocations[a], size), ram)
    ensures M.CanDo(m, M.Realloc(a, s.dynamic[a], size))
    ensures Matches(Record(s, Realloc(a, size)), M.Do(m, M.Realloc(a, s.dynamic[a], size)), ram)
  {
    hide AreaMatches, Resized, M.Resizing, Separate;
    SameSize(s, m, ram, a);
  }

  lemma ReallocEmpty(s: Shadow, m: M.Memory, ram: Ram, a: nat, size: nat)
    requires Matches(s, m, ram) && CanRecord(s, Realloc(a, size)) && (s.dynamic[a] == 0 || size == 0)
    requires ValidShadow(Record(s, Realloc(a, size)))
    ensures M.CanDo(m, M.Realloc(a, s.dynamic[a], size))
    ensures Matches(Record(s, Realloc(a, size)), M.Do(m, M.Realloc(a, s.dynamic[a], size)), ram)
  {
    hide Separate, Splice;
    var r := Record(s, Realloc(a, size));
    if s.dynamic[a] == 0 {
      assert s.areas[a] == [];
      assert r.areas[a] == Unknown(size);
    }
  }

  // ---------------------------------------------------------------- writes

  /** One area is replaced, and the program's bytes change within it only. */
  lemma ReplacedMatches(s: Shadow, m: M.Memory, ram: Ram, next: Ram, a: nat, bytes: seq<Byte>, alloc: M.Allocation)
    requires Matches(s, m, ram) && a in m.allocations && a in s.areas && |bytes| == |s.areas[a]| > 0
    requires alloc.Valid() && alloc.address == a && AreaMatches(bytes, alloc, next)
    requires forall x: nat | x < a || a + |s.areas[a]| <= x :: next(x) == ram(x)
    ensures Matches(s.(areas := s.areas[a := bytes]), M.With(m, a, alloc), next)
  {
    hide AreaMatches, Separate;
    SameSizes(s, s.(areas := s.areas[a := bytes]), a);
    forall b | b in s.areas && b != a && |s.areas[b]| > 0 ensures AreaMatches(s.areas[b], m.allocations[b], next) {
      Elsewhere(s, a, b);
      SameSize(s, m, ram, b);
      RamElsewhere(s.areas[b], m.allocations[b], ram, next);
    }
  }

  lemma StateMatches(s: Shadow, m: M.Memory, ram: Ram, start: nat, data: seq<Byte>)
    requires Matches(s, m, ram) && CanRecord(s, UntypedState(start, data)) && data != []
    ensures M.CanDo(m, M.Block(start, data))
    ensures Matches(Record(s, UntypedState(start, data)), M.Do(m, M.Block(start, data)),
                    RamAfter(ram, UntypedState(start, data)))
  {
    hide Separate, AreaMatches, M.ClearArea, M.SetArea, Splice, Matches;
    MatchesIsValid(s, m, ram);
    SameArea(s, m, ram, start, |data|);
    var a, next := AreaAt(s, start, |data|), RamAfter(ram, UntypedState(start, data));
    MatchesAt(s, m, ram, a);
    StateInArea(s.areas[a], m.allocations[a], ram, start, data);
    ReplacedMatches(s, m, ram, next, a, Splice(s.areas[a], start - a, Fill(|data|, INITIALIZED)),
                    M.SetArea(M.ClearArea(m.allocations[a], start, |data|), start, data, Fill(|data|, 255)));
  }

  lemma MatchesAt(s: Shadow, m: M.Memory, ram: Ram, a: nat)
    requires Matches(s, m, ram) && a in m.allocations
    ensures a in s.areas && |s.areas[a]| == |m.allocations[a].data| > 0 && m.allocations[a].address == a
    ensures m.allocations[a].Valid() && AreaMatches(s.areas[a], m.allocations[a], ram)
  {
  }

  /** Clearing changes initialization only, and saves the area. */
  lemma ClearBytes(a: M.Allocation, start: nat, length: nat)
    requires a.Valid() && a.Contains(start, length)
    ensures var r := M.ClearArea(a, start, length);
            && r.address == a.address && r.data == a.data
            && r.init == Splice(a.init, start - a.address, Fill(length, 0))
  {
  }

  lemma StateInArea(shadow: seq<Byte>, a: M.Allocation, ram: Ram, start: nat, data: seq<Byte>)
    requires a.Valid() && AreaMatches(shadow, a, ram) && a.Contains(start, |data|)
    ensures AreaMatches(Splice(shadow, start - a.address, Fill(|data|, INITIALIZED)),
                        M.SetArea(M.ClearArea(a, start, |data|), start, data, Fill(|data|, 255)),
                        RamAfter(ram, UntypedState(start, data)))
  {
    hide M.ClearArea, Splice, Fill;
    ClearBytes(a, start, |data|);
  }

  /** Changing bytes inside an area leaves the areas as they lie. */
  lemma SameSizes(s: Shadow, r: Shadow, a: nat)
    requires ValidShadow(s) && a in s.areas && a in r.areas && r.dynamic == s.dynamic
    requires r.areas == s.areas[a := r.areas[a]] && |r.areas[a]| == |s.areas[a]|
    ensures ValidShadow(r)
  {
  }

  lemma Elsewhere(s: Shadow, a: nat, b: nat)
    requires ValidShadow(s) && a in s.areas && b in s.areas && a != b
    ensures a + |s.areas[a]| <= b || b + |s.areas[b]| <= a
  {
  }

  lemma RamElsewhere(shadow: seq<Byte>, a: M.Allocation, ram: Ram, next: Ram)
    requires AreaMatches(shadow, a, ram)
    requires forall x: nat | a.address <= x < a.address + |shadow| :: next(x) == ram(x)
    ensures AreaMatches(shadow, a, next)
  {
  }

  /** `to` once an area of `from` has been copied over an area of it. */
  function Moved(from: M.Allocation, to: M.Allocation, start: nat, end: nat, size: nat): (r: M.Allocation)
    requires from.Valid() && to.Valid() && from.Contains(start, size) && to.Contains(end, size)
    ensures r.Valid() && r.address == to.address
  {
    hide M.ClearArea, M.SetArea;
    var o := start - from.address;
    M.SetArea(M.ClearArea(to, end, size), end, from.data[o..o + size], from.init[o..o + size])
  }

  lemma MoveMatches(s: Shadow, m: M.Memory, ram: Ram, from: nat, to: nat, size: nat)
    requires Matches(s, m, ram) && CanRecord(s, Memmove(from, to, size)) && size > 0
    ensures M.CanDo(m, M.Copy(from, to, size))
    ensures Matches(Record(s, Memmove(from, to, size)), M.Do(m, M.Copy(from, to, size)),
                    RamAfter(ram, Memmove(from, to, size)))
  {
    hide Floor, Separate, AreaMatches, M.DoCopy, M.With, Moved, Splice, Matches, ValidShadow, M.Memory.Valid,
      KeepsSource, NoneLive;
    MatchesIsValid(s, m, ram);
    SameArea(s, m, ram, from, size);
    SameArea(s, m, ram, to, size);
    var i, a, next := AreaAt(s, from, size), AreaAt(s, to, size), RamAfter(ram, Memmove(from, to, size));
    MatchesAt(s, m, ram, a);
    MatchesAt(s, m, ram, i);
    SourceKept(s, m, ram, from, to, size);
    MovedInArea(m, from, to, size);
    MoveInArea(s.areas[i], m.allocations[i], s.areas[a], m.allocations[a], ram, from, to, size);
    ReplacedMatches(s, m, ram, next, a, Splice(s.areas[a], to - a, ShadowBytes(s, from, size)),
                    Moved(m.allocations[i], m.allocations[a], from, to, size));
  }

  lemma HoldsAt(m: M.Memory, start: nat, size: nat)
    requires m.Valid() && m.Holds(start, size)
    ensures var k := m.Candidate(start).value;
            k in m.allocations && m.allocations[k].Valid() && m.allocations[k].address == k
            && m.allocations[k].Contains(start, size)
  {
  }

  /** Where the destination overlaps the source, nothing is initialized. */
  ghost predicate NoneLive(m: M.Memory, from: nat, to: nat, size: nat)
    requires m.Valid() && m.Holds(from, size)
  {
    HoldsAt(m, from, size);
    var i := m.Candidate(from).value;
    NoneLiveIn(m.allocations[i].init, from - i, to - i, size)
  }

  ghost predicate NoneLiveIn(init: seq<Byte>, from: nat, to: int, size: nat)
    requires from + size <= |init|
  {
    var source := init[from..from + size];
    forall k | 0 <= k < size && to <= from + k < to + size :: source[k] == 0
  }

  lemma SourceKept(s: Shadow, m: M.Memory, ram: Ram, from: nat, to: nat, size: nat)
    requires Matches(s, m, ram) && size > 0 && Contains(s, from, size)
    ensures m.Valid() && m.Holds(from, size)
    ensures KeepsSource(s, from, to, size) <==> NoneLive(m, from, to, size)
  {
    hide Floor, Separate, Matches, ValidShadow, M.Memory.Valid;
    MatchesIsValid(s, m, ram);
    SameArea(s, m, ram, from, size);
    var i := AreaAt(s, from, size);
    MatchesAt(s, m, ram, i);
    HoldsAt(m, from, size);
    var source := m.allocations[i].init[from - i..from - i + size];
    forall k | 0 <= k < size ensures ShadowBytes(s, from, size)[k] == UNINITIALIZED <==> source[k] == 0 {
      assert ShadowBytes(s, from, size)[k] == s.areas[i][from - i + k];
    }
  }

  lemma ClearedSource(init: seq<Byte>, from: nat, to: nat, size: nat)
    requires from + size <= |init| && to + size <= |init| && NoneLiveIn(init, from, to, size)
    ensures Splice(init, to, Fill(size, 0))[from..from + size] == init[from..from + size]
  {
    hide Splice;
  }

  /** Clearing the destination first does not touch what is copied. */
  lemma MovedInArea(m: M.Memory, from: nat, to: nat, size: nat)
    requires m.Valid() && m.Holds(from, size) && m.Holds(to, size) && size > 0 && NoneLive(m, from, to, size)
    ensures var i, a := m.Candidate(from).value, m.Candidate(to).value;
            && m.allocations[i].Valid() && m.allocations[i].Contains(from, size)
            && m.allocations[a].Valid() && m.allocations[a].Contains(to, size) && m.allocations[a].address == a
            && M.DoCopy(m, from, to, size) == M.With(m, a, Moved(m.allocations[i], m.allocations[a], from, to, size))
  {
    hide Floor, M.ClearArea, M.SetArea, Splice, NoneLiveIn;
    HoldsAt(m, from, size);
    HoldsAt(m, to, size);
    var i, a := m.Candidate(from).value, m.Candidate(to).value;
    ClearBytes(m.allocations[a], to, size);
    var cleared := M.ClearArea(m.allocations[a], to, size);
    if i == a {
      ClearedSource(m.allocations[i].init, from - i, to - i, size);
    }
    WithTwice(m, a, cleared, Moved(m.allocations[i], m.allocations[a], from, to, size));
  }

  lemma WithTwice(m: M.Memory, k: nat, a: M.Allocation, b: M.Allocation)
    requires m.Valid() && k in m.allocations && a.Valid() && b.Valid() && a.address == b.address == k
    ensures M.With(M.With(m, k, a), k, b) == M.With(m, k, b)
  {
  }

  lemma MovedBytes(from: M.Allocation, to: M.Allocation, start: nat, end: nat, size: nat)
    requires from.Valid() && to.Valid() && from.Contains(start, size) && to.Contains(end, size)
    ensures var o, p, r := start - from.address, end - to.address, Moved(from, to, start, end, size);
            && r.init == Splice(Splice(to.init, p, Fill(size, 0)), p, from.init[o..o + size])
            && r.data == Splice(to.data, p, from.data[o..o + size])
  {
    hide M.ClearArea, Splice;
    ClearBytes(to, end, size);
  }

  lemma MoveInArea(source: seq<Byte>, from: M.Allocation, shadow: seq<Byte>, to: M.Allocation, ram: Ram,
                   start: nat, end: nat, size: nat)
    requires from.Valid() && to.Valid() && AreaMatches(source, from, ram) && AreaMatches(shadow, to, ram)
    requires from.Contains(start, size) && to.Contains(end, size)
    ensures var o := start - from.address;
            AreaMatches(Splice(shadow, end - to.address, source[o..o + size]), Moved(from, to, start, end, size),
                        RamAfter(ram, Memmove(start, end, size)))
  {
    hide Moved, Splice, Fill;
    MovedBytes(from, to, start, end, size);
    var o, p, r := start - from.address, end - to.address, Moved(from, to, start, end, size);
    var moved, next := Splice(shadow, p, source[o..o + size]), RamAfter(ram, Memmove(start, end, size));
    forall k | 0 <= k < |moved|
      ensures if moved[k] == INITIALIZED then r.init[k] == 255 && r.data[k] == next(r.address + k)
              else moved[k] == UNINITIALIZED && r.init[k] == 0
    {
      if p <= k < p + size {
        assert moved[k] == source[o + (k - p)];
        assert r.init[k] == from.init[o + (k - p)] && r.data[k] == from.data[o + (k - p)];
      }
    }
  }

  // ---------------------------------------------------------------- globals, and the areas of a function

  lemma {:induction false} DoAllParts(m: M.Memory, a: seq<M.Op>, b: seq<M.Op>)
    requires m.Valid() && M.CanDoAll(m, a) && M.CanDoAll(M.DoAll(m, a), b)
    ensures M.CanDoAll(m, a + b) && M.DoAll(m, a + b) == M.DoAll(M.DoAll(m, a), b)
    decreases a
  {
    hide M.Do, M.CanDo;
    if a == [] {
      assert a + b == b;
    } else {
      assert (a + b)[1..] == a[1..] + b;
      DoAllParts(M.Do(m, a[0]), a[1..], b);
    }
  }

  /** A global variable: its area is added on both sides, and its initial bytes are known from the start. */
  lemma GlobalMatches(s: Shadow, m: M.Memory, ram: Ram, a: nat, data: seq<Byte>)
    requires Matches(s, m, ram) && CanRecord(s, Global(a, data))
    ensures M.CanDoAll(m, Written(s, Global(a, data)))
    ensures Matches(Record(s, Global(a, data)), M.DoAll(m, Written(s, Global(a, data))), RamAfter(ram, Global(a, data)))
  {
    hide Matches, M.Do, M.CanDo, Separate, Splice, Fill;
    MatchesIsValid(s, m, ram);
    AddMatches(s, m, ram, a, |data|, s.dynamic);
    var t, n := Record(s, AreaAdd(a, |data|)), M.Do(m, M.Add(a, |data|));
    NewArea(s, a, data);
    StateMatches(t, n, ram, a, data);
    DoOne(m, M.Add(a, |data|));
    DoOne(n, M.Block(a, data));
    DoAllParts(m, [M.Add(a, |data|)], [M.Block(a, data)]);
    assert [M.Add(a, |data|)] + [M.Block(a, data)] == Written(s, Global(a, data));
  }

  /** Writing the whole of a new area. */
  lemma NewArea(s: Shadow, a: nat, data: seq<Byte>)
    requires data != [] && IsFree(s.areas, a, |data|)
    ensures var t := Record(s, AreaAdd(a, |data|));
            && CanRecord(t, UntypedState(a, data))
            && Record(t, UntypedState(a, data)) == Record(s, Global(a, data))
  {
    var t := Record(s, AreaAdd(a, |data|));
    assert Floor(t.areas.Keys, a) == Some(a);
    assert Splice(Unknown(|data|), 0, Fill(|data|, INITIALIZED)) == Fill(|data|, INITIALIZED);
  }

  lemma FirstRemoved(areas: seq<(nat, nat)>)
    requires areas != []
    ensures Removes(areas) == [M.Remove(areas[0].0, areas[0].1)] + Removes(areas[1..])
    ensures Clears(areas) == [M.Clear(areas[0].0, areas[0].1)] + Clears(areas[1..])
  {
  }

  lemma {:induction false} RemovesMatch(s: Shadow, m: M.Memory, ram: Ram, areas: seq<(nat, nat)>)
    requires Matches(s, m, ram) && CanRemoveEach(s, areas)
    ensures M.CanDoAll(m, Removes(areas)) && Matches(RemoveEach(s, areas), M.DoAll(m, Removes(areas)), ram)
    decreases |areas|
  {
    hide Matches, M.Do, M.CanDo, M.DoAll, M.CanDoAll, Removes;
    MatchesIsValid(s, m, ram);
    if areas == [] {
      NothingToDo(m);
      assert Removes(areas) == [];
    } else {
      var a, size := areas[0].0, areas[0].1;
      assert s.dynamic - {a} == s.dynamic;
      RemoveMatches(s, m, ram, a, s.dynamic);
      DoOne(m, M.Remove(a, size));
      var n := M.Do(m, M.Remove(a, size));
      RemovesMatch(Without(s, a), n, ram, areas[1..]);
      FirstRemoved(areas);
      DoAllParts(m, [M.Remove(a, size)], Removes(areas[1..]));
    }
  }

  function Starts(areas: seq<(nat, nat)>): set<nat> { set i | 0 <= i < |areas| :: areas[i].0 }

  /** The order of removal does not matter. */
  lemma {:induction false} RemovedAreas(s: Shadow, areas: seq<(nat, nat)>)
    ensures RemoveEach(s, areas) == s.(areas := s.areas - Starts(areas))
    decreases |areas|
  {
    if areas != [] {
      RemovedAreas(Without(s, areas[0].0), areas[1..]);
      assert Starts(areas) == {areas[0].0} + Starts(areas[1..]) by {
        forall x | x in Starts(areas) ensures x in {areas[0].0} + Starts(areas[1..]) {
          var i :| 0 <= i < |areas| && x == areas[i].0;
          if i > 0 { assert areas[1..][i - 1] == areas[i]; }
        }
        forall x | x in Starts(areas[1..]) ensures x in Starts(areas) {
          var i :| 0 <= i < |areas[1..]| && x == areas[1..][i].0;
          assert areas[i + 1].0 == x;
        }
      }
    }
  }

  lemma StartsOfBoth(a: seq<(nat, nat)>, b: seq<(nat, nat)>)
    ensures Starts(a + b) == Starts(b + a) == Starts(a) + Starts(b)
  {
    forall x | x in Starts(a) + Starts(b) ensures x in Starts(a + b) && x in Starts(b + a) {
      if x in Starts(a) {
        var i :| 0 <= i < |a| && x == a[i].0;
        assert (a + b)[i] == a[i] && (b + a)[|b| + i] == a[i];
      } else {
        var i :| 0 <= i < |b| && x == b[i].0;
        assert (a + b)[|a| + i] == b[i] && (b + a)[i] == b[i];
      }
    }
    forall x | x in Starts(a + b) ensures x in Starts(a) + Starts(b) {
      var i :| 0 <= i < |a + b| && x == (a + b)[i].0;
      assert (a + b)[i] == if i < |a| then a[i] else b[i - |a|];
    }
    forall x | x in Starts(b + a) ensures x in Starts(a) + Starts(b) {
      var i :| 0 <= i < |b + a| && x == (b + a)[i].0;
      assert (b + a)[i] == if i < |b| then b[i] else a[i - |b|];
    }
  }

  lemma ClearsOfBoth(a: seq<(nat, nat)>, b: seq<(nat, nat)>)
    ensures Clears(a) + Clears(b) == Clears(a + b)
  {
  }

  lemma TakeTwice(m: map<nat, seq<Byte>>, a: set<nat>, b: set<nat>)
    ensures m - (b + a) == m - a - b
  {
  }

  lemma HalvesOnStack(s: Shadow, byVals: seq<(nat, nat)>, allocas: seq<(nat, nat)>)
    requires CanRemoveEach(s, byVals + allocas)
    ensures CanRemoveEach(s, allocas) && CanRemoveEach(s, byVals)
    ensures forall i | 0 <= i < |byVals| :: byVals[i].0 !in Starts(allocas)
  {
    hide IsOnStack;
    var both := byVals + allocas;
    assert forall i | 0 <= i < |allocas| :: allocas[i] == both[|byVals| + i];
    assert forall i | 0 <= i < |byVals| :: byVals[i] == both[i];
  }

  /** Removing the allocas first and then the by-value areas, as the recorder does. */
  lemma BothHalves(s: Shadow, byVals: seq<(nat, nat)>, allocas: seq<(nat, nat)>)
    requires CanRemoveEach(s, byVals + allocas)
    ensures CanRemoveEach(s, allocas)
    ensures CanRemoveEach(s.(areas := s.areas - Starts(allocas)), byVals)
    ensures RemoveEach(s, byVals + allocas) == s.(areas := s.areas - Starts(allocas) - Starts(byVals))
  {
    hide RemoveEach, Starts;
    HalvesOnStack(s, byVals, allocas);
    RemovedAreas(s, byVals + allocas);
    StartsOfBoth(byVals, allocas);
    TakeTwice(s.areas, Starts(allocas), Starts(byVals));
  }

  /** No area of the shadow has a byte in common with the given one. */
  ghost predicate Vacant(s: Shadow, a: nat, size: nat) {
    size > 0 && forall b | b in s.areas && |s.areas[b]| > 0 :: b + |s.areas[b]| <= a || a + size <= b
  }

  lemma RemovedAreVacant(s: Shadow, areas: seq<(nat, nat)>, i: nat)
    requires ValidShadow(s) && CanRemoveEach(s, areas) && i < |areas|
    ensures Vacant(RemoveEach(s, areas), areas[i].0, areas[i].1)
  {
    hide CanRemoveEach, RemoveEach;
    RemovedAreas(s, areas);
    EachOnStack(s, areas, i);
    assert areas[i].0 in Starts(areas);
  }

  lemma EachOnStack(s: Shadow, areas: seq<(nat, nat)>, i: nat)
    requires CanRemoveEach(s, areas) && i < |areas|
    ensures IsOnStack(s, areas[i].0, areas[i].1)
  {
  }

  /** Clearing where nothing is finds no allocation, so that it changes nothing. */
  lemma VacantClear(s: Shadow, m: M.Memory, ram: Ram, a: nat, size: nat)
    requires Matches(s, m, ram) && Vacant(s, a, size)
    ensures M.CanDo(m, M.Clear(a, size)) && M.Do(m, M.Clear(a, size)) == m
  {
    hide AreaMatches;
    if m.Holds(a, size) {
      SameSize(s, m, ram, m.Candidate(a).value);
    }
  }

  lemma {:induction false} VacantClears(s: Shadow, m: M.Memory, ram: Ram, areas: seq<(nat, nat)>)
    requires Matches(s, m, ram) && forall i | 0 <= i < |areas| :: Vacant(s, areas[i].0, areas[i].1)
    ensures m.Valid() && M.CanDoAll(m, Clears(areas)) && M.DoAll(m, Clears(areas)) == m
    decreases |areas|
  {
    hide Matches, Vacant, M.Do, M.CanDo, M.DoAll, M.CanDoAll, Clears;
    MatchesIsValid(s, m, ram);
    NothingToDo(m);
    if areas == [] {
      assert Clears(areas) == [];
    } else {
      var a, size := areas[0].0, areas[0].1;
      assert Vacant(s, areas[0].0, areas[0].1);
      VacantClear(s, m, ram, a, size);
      DoOne(m, M.Clear(a, size));
      VacantClears(s, m, ram, areas[1..]);
      FirstRemoved(areas);
      DoAllParts(m, [M.Clear(a, size)], Clears(areas[1..]));
    }
  }

  /** The clear events that follow the end of a function find nothing to clear. */
  lemma FunctionEndMatches(s: Shadow, m: M.Memory, ram: Ram, byVals: seq<(nat, nat)>, allocas: seq<(nat, nat)>)
    requires Matches(s, m, ram) && CanRecord(s, FunctionEnd(byVals, allocas))
    ensures M.CanDoAll(m, Written(s, FunctionEnd(byVals, allocas)))
    ensures Matches(Record(s, FunctionEnd(byVals, allocas)), M.DoAll(m, Written(s, FunctionEnd(byVals, allocas))), ram)
  {
    hide Matches, Vacant, M.Do, M.CanDo, M.DoAll, M.CanDoAll, Clears, Removes, CanRemoveEach;
    MatchesIsValid(s, m, ram);
    var removed, cleared := byVals + allocas, allocas + byVals;
    var t := RemoveEach(s, removed);
    RemovesMatch(s, m, ram, removed);
    var n := M.DoAll(m, Removes(removed));
    forall i | 0 <= i < |cleared| ensures Vacant(t, cleared[i].0, cleared[i].1) {
      RemovedAreVacant(s, removed, if i < |allocas| then |byVals| + i else i - |allocas|);
    }
    VacantClears(t, n, ram, cleared);
    DoAllParts(m, Removes(removed), Clears(cleared));
  }

  // ---------------------------------------------------------------- every call, and every run

  /** After every call of the recorder, and the replay of what it wrote, the same bytes are initialized on
      both sides, and those have been replayed as they were. Nothing that replay asserts fails. */
  lemma CallMatches(s: Shadow, m: M.Memory, ram: Ram, c: Call)
    requires Matches(s, m, ram) && CanRecord(s, c)
    ensures M.CanDoAll(m, Written(s, c))
    ensures Matches(Record(s, c), M.DoAll(m, Written(s, c)), RamAfter(ram, c))
  {
    hide Matches, M.CanDoAll, M.DoAll, M.Do, M.CanDo;
    MatchesIsValid(s, m, ram);
    match c {
      case Malloc(a, size) =>
        AddMatches(s, m, ram, a, size, s.dynamic[a := size]);
        DoOne(m, M.Add(a, size));
      case AreaAdd(a, size) =>
        AddMatches(s, m, ram, a, size, s.dynamic);
        DoOne(m, M.Add(a, size));
      case Free(a) =>
        RemoveMatches(s, m, ram, a, s.dynamic - {a});
        DoOne(m, M.Remove(a, s.dynamic[a]));
      case FreeAndClear(a) => FreeAndClearMatches(s, m, ram, a);
      case Global(a, data) => GlobalMatches(s, m, ram, a, data);
      case FunctionEnd(byVals, allocas) => FunctionEndMatches(s, m, ram, byVals, allocas);
      case AreaRemove(a, size) =>
        assert s.dynamic - {a} == s.dynamic;
        RemoveMatches(s, m, ram, a, s.dynamic);
        DoOne(m, M.Remove(a, size));
      case Realloc(a, size) =>
        ReallocMatches(s, m, ram, a, size);
        DoOne(m, M.Realloc(a, s.dynamic[a], size));
      case UntypedState(a, data) =>
        if data != [] {
          StateMatches(s, m, ram, a, data);
          DoOne(m, M.Block(a, data));
        } else {
          NothingWritten(s, m, ram, c);
        }
      case Memmove(from, to, size) =>
        if size > 0 {
          MoveMatches(s, m, ram, from, to, size);
          DoOne(m, M.Copy(from, to, size));
        } else {
          NothingWritten(s, m, ram, c);
        }
    }
  }

  lemma MatchesIsValid(s: Shadow, m: M.Memory, ram: Ram)
    requires Matches(s, m, ram)
    ensures m.Valid() && ValidShadow(s)
  {
  }

  lemma NothingWritten(s: Shadow, m: M.Memory, ram: Ram, c: Call)
    requires Matches(s, m, ram) && CanRecord(s, c) && Written(s, c) == [] && Record(s, c) == s
    requires forall x :: RamAfter(ram, c)(x) == ram(x)
    ensures M.CanDoAll(m, []) && Matches(s, M.DoAll(m, []), RamAfter(ram, c))
  {
    forall a | a in s.areas && |s.areas[a]| > 0 ensures AreaMatches(s.areas[a], m.allocations[a], RamAfter(ram, c)) {
      RamElsewhere(s.areas[a], m.allocations[a], ram, RamAfter(ram, c));
    }
  }

  lemma FreeAndClearMatches(s: Shadow, m: M.Memory, ram: Ram, a: nat)
    requires Matches(s, m, ram) && CanRecord(s, FreeAndClear(a))
    ensures M.CanDoAll(m, Written(s, FreeAndClear(a)))
    ensures Matches(Record(s, FreeAndClear(a)), M.DoAll(m, Written(s, FreeAndClear(a))), ram)
  {
    hide AreaMatches, Separate;
    var size := s.dynamic[a];
    RemoveMatches(s, m, ram, a, s.dynamic - {a});
    DoOne(m, M.Remove(a, size));
    if size > 0 {
      ClearAfterFree(s, m, ram, a, size);
      var freed := M.Do(m, M.Remove(a, size));
      DoOne(freed, M.Clear(a, size));
      assert Written(s, FreeAndClear(a))[1..] == [M.Clear(a, size)];
    } else {
      assert Written(s, FreeAndClear(a)) == [M.Remove(a, size)];
    }
  }

  /** Everything that the recorder can be asked for, one call after another. */
  ghost predicate CanRecordAll(s: Shadow, calls: seq<Call>)
    decreases calls
  {
    calls == [] || (CanRecord(s, calls[0]) && CanRecordAll(Record(s, calls[0]), calls[1..]))
  }

  ghost function RecordAll(s: Shadow, calls: seq<Call>): Shadow
    requires CanRecordAll(s, calls)
    decreases calls
  {
    if calls == [] then s else RecordAll(Record(s, calls[0]), calls[1..])
  }

  ghost function WrittenAll(s: Shadow, calls: seq<Call>): seq<M.Op>
    requires CanRecordAll(s, calls)
    decreases calls
  {
    if calls == [] then [] else Written(s, calls[0]) + WrittenAll(Record(s, calls[0]), calls[1..])
  }

  ghost function RamAfterAll(ram: Ram, calls: seq<Call>): Ram {
    if calls == [] then ram else RamAfterAll(RamAfter(ram, calls[0]), calls[1..])
  }

  lemma {:induction false} CallsMatch(s: Shadow, m: M.Memory, ram: Ram, calls: seq<Call>)
    requires Matches(s, m, ram) && CanRecordAll(s, calls)
    ensures m.Valid() && M.CanDoAll(m, WrittenAll(s, calls))
    ensures Matches(RecordAll(s, calls), M.DoAll(m, WrittenAll(s, calls)), RamAfterAll(ram, calls))
    decreases calls
  {
    hide Matches, M.DoAll, M.CanDoAll, Written, Record, RamAfter;
    MatchesIsValid(s, m, ram);
    if calls != [] {
      CallMatches(s, m, ram, calls[0]);
      CallsMatch(Record(s, calls[0]), M.DoAll(m, Written(s, calls[0])), RamAfter(ram, calls[0]), calls[1..]);
      DoAllParts(m, Written(s, calls[0]), WrittenAll(Record(s, calls[0]), calls[1..]));
    } else {
      NothingToDo(m);
    }
  }

  lemma NothingToDo(m: M.Memory)
    requires m.Valid()
    ensures M.CanDoAll(m, []) && M.DoAll(m, []) == m
  {
  }

  /** A whole recording: replaying all that was written builds a memory whose initialized bytes are those of
      the recorder's shadow, with the values that the program had. */
  lemma Simulation(ram: Ram, calls: seq<Call>)
    requires CanRecordAll(Shadow(map[], map[]), calls)
    ensures var ops := WrittenAll(Shadow(map[], map[]), calls);
            && M.CanDoAll(M.EmptyMemory, ops)
            && Matches(RecordAll(Shadow(map[], map[]), calls), M.DoAll(M.EmptyMemory, ops), RamAfterAll(ram, calls))
  {
    CallsMatch(Shadow(map[], map[]), M.EmptyMemory, ram, calls);
  }

  // ---------------------------------------------------------------- overlapping moves

  function Max(a: nat, b: nat): nat { if a < b then b else a }

  function Min(a: nat, b: nat): nat { if a < b then a else b }

  /** Replaying a move within one area clears the destination before it reads the source: the destination
      ends up with the source's initialization if and only if no byte of the overlap was initialized. */
  lemma OverlapAgreesIff(m: M.Memory, from: nat, to: nat, size: nat)
    requires m.Valid() && size > 0 && m.Holds(from, size) && m.Holds(to, size)
    requires m.Candidate(from) == m.Candidate(to) && Max(from, to) < Min(from, to) + size
    ensures var k := m.Candidate(to).value;
            var before, after := m.allocations[k].init, M.Do(m, M.Copy(from, to, size)).allocations[k].init;
            after[to - k..to - k + size] == before[from - k..from - k + size] <==>
            M.Uniform(before[Max(from, to) - k..Min(from, to) + size - k], 0)
  {
    hide M.ClearArea, M.SetArea, Splice, Fill, Floor, M.Do, M.CanDo, Max, Min, M.Uniform, M.Memory.Valid,
      M.Allocation.Valid;
    var k := m.Candidate(to).value;
    HoldsAt(m, from, size);
    HoldsAt(m, to, size);
    ClearBytes(m.allocations[k], to, size);
    CopiedInit(m, from, to, size);
    Shifted(from, to, k, size);
    ClearedAgreesIff(m.allocations[k].init, from - k, to - k, size);
  }

  /** Two areas that have a byte in common lie in one area of the shadow. */
  lemma SameAreaOfBoth(s: Shadow, from: nat, to: nat, size: nat, k: nat)
    requires ValidShadow(s) && Contains(s, from, size) && Contains(s, to, size) && k < size
    requires to <= from + k < to + size
    ensures AreaAt(s, from, size) == AreaAt(s, to, size)
  {
    hide Floor;
  }

  lemma NotMatching(s: Shadow, m: M.Memory, ram: Ram, a: nat, k: nat)
    requires a in s.areas && a in m.allocations && k < |s.areas[a]| && k < |m.allocations[a].init|
    requires s.areas[a][k] != UNINITIALIZED && m.allocations[a].init[k] == 0
    ensures !Matches(s, m, ram)
  {
  }

  lemma ClearedByte(a: M.Allocation, start: nat, length: nat, k: nat)
    requires a.Valid() && a.Contains(start, length) && start <= a.address + k < start + length
    ensures k < |M.ClearArea(a, start, length).init| && M.ClearArea(a, start, length).init[k] == 0
  {
    hide M.ClearArea;
    ClearBytes(a, start, length);
  }

  /** A byte of the overlap is not initialized where it has been copied to. */
  lemma CopiedByte(m: M.Memory, from: nat, to: nat, size: nat, k: nat)
    requires m.Valid() && size > 0 && m.Holds(from, size) && m.Holds(to, size) && m.Candidate(from) == m.Candidate(to)
    requires k < size && to <= from + k < to + size
    ensures M.CanDo(m, M.Copy(from, to, size))
    ensures var a, n := m.Candidate(to).value, M.Do(m, M.Copy(from, to, size));
            && a <= to && a in n.allocations && to - a + k < |n.allocations[a].init|
            && n.allocations[a].init[to - a + k] == 0
  {
    hide Floor, M.Do, M.ClearArea, M.Memory.Valid, M.CanDo, Splice, Fill;
    var a := m.Candidate(to).value;
    HoldsAt(m, from, size);
    HoldsAt(m, to, size);
    CopiedInit(m, from, to, size);
    ClearedByte(m.allocations[a], to, size, from - a + k);
    var after, cleared := M.Do(m, M.Copy(from, to, size)).allocations[a].init, M.ClearArea(m.allocations[a], to, size);
    assert after[to - a..to - a + size][k] == after[to - a + k];
    assert cleared.init[from - a..from - a + size][k] == cleared.init[from - a + k];
  }

  /** An initialized byte of the overlap is not initialized where it has been copied to. */
  lemma SourceLost(s: Shadow, m: M.Memory, ram: Ram, from: nat, to: nat, size: nat, k: nat)
    requires Matches(s, m, ram) && Contains(s, from, size) && Contains(s, to, size) && k < size
    requires to <= from + k < to + size && ShadowBytes(s, from, size)[k] != UNINITIALIZED
    ensures m.Valid() && M.CanDo(m, M.Copy(from, to, size))
    ensures !Matches(SetShadow(s, to, ShadowBytes(s, from, size)), M.Do(m, M.Copy(from, to, size)),
                     RamAfter(ram, Memmove(from, to, size)))
  {
    hide Floor, Separate, M.Do, M.CanDo, Matches, ValidShadow, M.Memory.Valid, Splice, RamAfter;
    MatchesIsValid(s, m, ram);
    SameArea(s, m, ram, from, size);
    SameArea(s, m, ram, to, size);
    SameAreaOfBoth(s, from, to, size, k);
    var a := AreaAt(s, to, size);
    CopiedByte(m, from, to, size, k);
    var t := SetShadow(s, to, ShadowBytes(s, from, size));
    assert t.areas[a][to - a + k] == ShadowBytes(s, from, size)[k];
    NotMatching(t, M.Do(m, M.Copy(from, to, size)), RamAfter(ram, Memmove(from, to, size)), a, to - a + k);
  }

  /** So a move, overlapping or not, is replayed as it was recorded if and only if it keeps its source. */
  lemma MoveMatchesIff(s: Shadow, m: M.Memory, ram: Ram, from: nat, to: nat, size: nat)
    requires Matches(s, m, ram) && size > 0 && Contains(s, from, size) && Contains(s, to, size)
    ensures m.Valid() && M.CanDo(m, M.Copy(from, to, size))
    ensures Matches(SetShadow(s, to, ShadowBytes(s, from, size)), M.Do(m, M.Copy(from, to, size)),
                    RamAfter(ram, Memmove(from, to, size)))
            <==> KeepsSource(s, from, to, size)
  {
    hide Floor, Separate, AreaMatches, M.Do, Matches, ValidShadow, M.Memory.Valid, ShadowBytes, Splice;
    MatchesIsValid(s, m, ram);
    SameArea(s, m, ram, from, size);
    SameArea(s, m, ram, to, size);
    if KeepsSource(s, from, to, size) {
      MoveMatches(s, m, ram, from, to, size);
    } else {
      var k :| 0 <= k < size && to <= from + k < to + size && ShadowBytes(s, from, size)[k] != UNINITIALIZED;
      SourceLost(s, m, ram, from, to, size, k);
    }
  }

  const THREE_BYTES := M.Memory(map[8 := M.Allocation(8, [1, 2, 3], [255, 255, 255], [])], [])

  /** Moving two initialized bytes one byte on: the second of them is not initialized afterwards. */
  lemma OverlapLoses()
    ensures THREE_BYTES.Valid() && M.CanDo(THREE_BYTES, M.Copy(8, 9, 2))
    ensures var after := M.Do(THREE_BYTES, M.Copy(8, 9, 2)).allocations;
            8 in after && after[8].init[1..3] != THREE_BYTES.allocations[8].init[0..2]
  {
    hide M.Do, M.ClearArea, M.SetArea;
    assert Floor({8}, 8) == Some(8);
    assert Floor({8}, 9) == Some(8);
    assert THREE_BYTES.allocations.Keys == {8};
    CopiedInit(THREE_BYTES, 8, 9, 2);
    OverlapAgreesIff(THREE_BYTES, 8, 9, 2);
    assert THREE_BYTES.allocations[8].init[1..2][0] == 255;
  }

  lemma CopiedInit(m: M.Memory, from: nat, to: nat, size: nat)
    requires m.Valid() && size > 0 && m.Holds(from, size) && m.Holds(to, size) && m.Candidate(from) == m.Candidate(to)
    ensures var k := m.Candidate(to).value;
            && m.allocations[k].Valid() && m.allocations[k].Contains(to, size)
            && M.CanDo(m, M.Copy(from, to, size)) && k in M.Do(m, M.Copy(from, to, size)).allocations
            && var cleared := M.ClearArea(m.allocations[k], to, size);
               var after := M.Do(m, M.Copy(from, to, size)).allocations[k].init;
               && k <= from && k <= to && from - k + size <= |cleared.init| == |after| && to - k + size <= |after|
               && after[to - k..to - k + size] == cleared.init[from - k..from - k + size]
  {
    hide Floor, M.ClearArea, M.SetArea, Splice, M.Do;
    var k := m.Candidate(to).value;
    HoldsAt(m, from, size);
    HoldsAt(m, to, size);
    ClearBytes(m.allocations[k], to, size);
    CopyWithin(m, from, to, size);
    var cleared := M.ClearArea(m.allocations[k], to, size);
    SetBytes(cleared, to, cleared.data[from - k..from - k + size], cleared.init[from - k..from - k + size]);
  }

  lemma Shifted(from: nat, to: nat, k: nat, size: nat)
    requires k <= from && k <= to
    ensures Max(from, to) - k == Max(from - k, to - k) && Min(from, to) - k == Min(from - k, to - k)
  {
  }

  lemma CopyWithin(m: M.Memory, from: nat, to: nat, size: nat)
    requires m.Valid() && size > 0 && m.Holds(from, size) && m.Holds(to, size) && m.Candidate(from) == m.Candidate(to)
    ensures var k := m.Candidate(to).value;
            && m.allocations[k].Valid() && m.allocations[k].Contains(to, size) && m.allocations[k].Contains(from, size)
            && m.allocations[k].address == k
            && var cleared := M.ClearArea(m.allocations[k], to, size);
               k in M.Do(m, M.Copy(from, to, size)).allocations
               && M.Do(m, M.Copy(from, to, size)).allocations[k] ==
                  M.SetArea(cleared, to, cleared.data[from - k..from - k + size],
                            cleared.init[from - k..from - k + size])
  {
    hide Floor, M.ClearArea, M.SetArea;
    HoldsAt(m, from, size);
    HoldsAt(m, to, size);
  }

  lemma ClearedAgreesIff(init: seq<Byte>, from: nat, to: nat, size: nat)
    requires from + size <= |init| && to + size <= |init| && Max(from, to) < Min(from, to) + size
    ensures Splice(init, to, Fill(size, 0))[from..from + size] == init[from..from + size] <==>
            M.Uniform(init[Max(from, to)..Min(from, to) + size], 0)
  {
    hide Splice;
    var low, high, cleared := Max(from, to), Min(from, to) + size, Splice(init, to, Fill(size, 0));
    if cleared[from..from + size] == init[from..from + size] {
      forall x | low <= x < high ensures init[x] == 0 {
        assert cleared[from..from + size][x - from] == init[from..from + size][x - from];
      }
    }
    if M.Uniform(init[low..high], 0) {
      forall x | from <= x < from + size ensures cleared[x] == init[x] {
        if low <= x < high {
          assert init[low..high][x - low] == 0;
        }
      }
    }
  }

  lemma SetBytes(a: M.Allocation, start: nat, data: seq<Byte>, init: seq<Byte>)
    requires a.Valid() && a.Contains(start, |data|) && |data| == |init|
    ensures var r, o := M.SetArea(a, start, data, init), start - a.address;
            |r.init| == |a.init| && r.init[o..o + |init|] == init
  {
  }

  // ---------------------------------------------------------------- the recorder, updated in place

  /** The shadow memory of the process, the dynamic allocations, and what has been written. */
  class TraceThreadListener {
    var areas: map<nat, seq<Byte>>
    var dynamicMemoryAllocations: map<nat, nat>
    var eventsOut: seq<M.Op>

    function View(): Shadow
      reads this
    {
      Shadow(areas, dynamicMemoryAllocations)
    }

    constructor ()
      ensures View() == Shadow(map[], map[]) && eventsOut == []
    {
      areas, dynamicMemoryAllocations, eventsOut := map[], map[], [];
    }

    method ResizeAllocation(address: nat, size: nat)
      requires address in areas
      modifies this`areas
      ensures areas == old(areas)[address := Resized(old(areas)[address], size)]
    {
      areas := areas[address := Resized(areas[address], size)];
    }

    method ClearState(start: nat, length: nat)
      requires Contains(View(), start, length)
      modifies this`areas
      ensures View() == SetShadow(old(View()), start, Unknown(length))
    {
      var a := AreaAt(View(), start, length);
      areas := areas[a := Splice(areas[a], start - a, Unknown(length))];
    }

    /** An address that is allocated already is a reallocation. */
    method SetCurrentDynamicMemoryAllocation(address: nat, size: nat)
      requires address in dynamicMemoryAllocations ==> address in areas
      requires address !in dynamicMemoryAllocations ==> address !in areas
      modifies this`areas, this`dynamicMemoryAllocations
      ensures dynamicMemoryAllocations == old(dynamicMemoryAllocations)[address := size]
      ensures areas == old(areas)[address :=
                if address in old(dynamicMemoryAllocations) then Resized(old(areas)[address], size) else Unknown(size)]
    {
      if address in dynamicMemoryAllocations {
        ResizeAllocation(address, size);
      } else {
        areas := areas[address := Unknown(size)];
      }
      dynamicMemoryAllocations := dynamicMemoryAllocations[address := size];
    }

    method RecordMalloc(address: nat, size: nat)
      requires CanRecord(View(), Malloc(address, size))
      modifies this
      ensures View() == Record(old(View()), Malloc(address, size))
      ensures eventsOut == old(eventsOut) + Written(old(View()), Malloc(address, size))
    {
      eventsOut := eventsOut + [M.Add(address, size)];
      SetCurrentDynamicMemoryAllocation(address, size);
    }

    method RecordRealloc(address: nat, size: nat)
      requires ValidShadow(View()) && CanRecord(View(), Realloc(address, size))
      modifies this
      ensures View() == Record(old(View()), Realloc(address, size))
      ensures eventsOut == old(eventsOut) + Written(old(View()), Realloc(address, size))
    {
      hide Resized, Splice, Separate;
      var oldSize := dynamicMemoryAllocations[address];
      eventsOut := eventsOut + [M.Realloc(address, oldSize, size)];
      if size < oldSize {
        OwnArea(View(), address, size);
        ClearState(address + size, oldSize - size);
      }
      ResizeAllocation(address, size);
      ResizedTwice(areas[address], size);
      SetCurrentDynamicMemoryAllocation(address, size);
    }

    static lemma ResizedTwice(shadow: seq<Byte>, size: nat)
      requires |shadow| == size
      ensures Resized(shadow, size) == shadow
    {
    }

    static lemma OwnArea(s: Shadow, a: nat, size: nat)
      requires ValidShadow(s) && a in s.areas && size < |s.areas[a]|
      ensures Contains(s, a + size, |s.areas[a]| - size) && AreaAt(s, a + size, |s.areas[a]| - size) == a
    {
    }

    method RecordFree(address: nat) returns (size: nat)
      requires CanRecord(View(), Free(address))
      modifies this
      ensures View() == Record(old(View()), Free(address)) && size == old(dynamicMemoryAllocations)[address]
      ensures eventsOut == old(eventsOut) + Written(old(View()), Free(address))
    {
      size := dynamicMemoryAllocations[address];
      eventsOut := eventsOut + [M.Remove(address, size)];
      areas, dynamicMemoryAllocations := areas - {address}, dynamicMemoryAllocations - {address};
    }

    method RecordFreeAndClear(address: nat)
      requires CanRecord(View(), FreeAndClear(address))
      modifies this
      ensures View() == Record(old(View()), FreeAndClear(address))
      ensures eventsOut == old(eventsOut) + Written(old(View()), FreeAndClear(address))
    {
      var size := RecordFree(address);
      if size > 0 {
        eventsOut := eventsOut + [M.Clear(address, size)];
      }
    }

    method RecordUntypedState(address: nat, data: seq<Byte>)
      requires CanRecord(View(), UntypedState(address, data))
      modifies this
      ensures View() == Record(old(View()), UntypedState(address, data))
      ensures eventsOut == old(eventsOut) + Written(old(View()), UntypedState(address, data))
    {
      if data == [] { return; }
      var a := AreaAt(View(), address, |data|);
      areas := areas[a := Splice(areas[a], address - a, Fill(|data|, INITIALIZED))];
      eventsOut := eventsOut + [M.Block(address, data)];
    }

    method RecordMemmove(source: nat, destination: nat, size: nat)
      requires CanRecord(View(), Memmove(source, destination, size))
      modifies this
      ensures View() == Record(old(View()), Memmove(source, destination, size))
      ensures eventsOut == old(eventsOut) + Written(old(View()), Memmove(source, destination, size))
    {
      if size == 0 { return; }
      var bytes := ShadowBytes(View(), source, size);
      var a := AreaAt(View(), destination, size);
      areas := areas[a := Splice(areas[a], destination - a, bytes)];
      eventsOut := eventsOut + [M.Copy(source, destination, size)];
    }

    method NotifyGlobalVariable(address: nat, data: seq<Byte>)
      requires CanRecord(View(), Global(address, data))
      modifies this
      ensures View() == Record(old(View()), Global(address, data))
      ensures eventsOut == old(eventsOut) + Written(old(View()), Global(address, data))
    {
      areas := areas[address := Unknown(|data|)];
      areas := areas[address := Fill(|data|, INITIALIZED)];
      eventsOut := eventsOut + [M.Add(address, |data|), M.Block(address, data)];
    }

    /** Clear each area and remove it. Nothing of the clearing is left. */
    method ClearAreas(list: seq<(nat, nat)>)
      requires CanRemoveEach(View(), list)
      modifies this
      ensures areas == old(areas) - Starts(list) && dynamicMemoryAllocations == old(dynamicMemoryAllocations)
      ensures eventsOut == old(eventsOut) + Clears(list)
    {
      var i := 0;
      assert list[..0] == [] && old(areas) - Starts([]) == old(areas);
      while i < |list|
        invariant i <= |list| && areas == old(areas) - Starts(list[..i])
        invariant forall j | i <= j < |list| :: IsOnStack(View(), list[j].0, list[j].1)
        invariant dynamicMemoryAllocations == old(dynamicMemoryAllocations)
        invariant eventsOut == old(eventsOut) + Clears(list[..i])
      {
        eventsOut := eventsOut + [M.Clear(list[i].0, list[i].1)];
        ClearState(list[i].0, list[i].1);
        areas := areas - {list[i].0};
        StartsOfBoth(list[..i], [list[i]]);
        assert [list[i]][0] == list[i];
        i := i + 1;
        assert list[..i] == list[..i - 1] + [list[i - 1]];
      }
    }

    /** The event removes the areas in the order of its replay; they are then cleared, allocas first. */
    method NotifyFunctionEnd(byVals: seq<(nat, nat)>, allocas: seq<(nat, nat)>)
      requires CanRecord(View(), FunctionEnd(byVals, allocas))
      modifies this
      ensures View() == Record(old(View()), FunctionEnd(byVals, allocas))
      ensures eventsOut == old(eventsOut) + Written(old(View()), FunctionEnd(byVals, allocas))
    {
      hide RemoveEach, CanRemoveEach, Starts, Clears, Removes;
      BothHalves(View(), byVals, allocas);
      eventsOut := eventsOut + Removes(byVals + allocas);
      ClearAreas(allocas);
      ClearAreas(byVals);
      ClearsOfBoth(allocas, byVals);
    }

    /** The length of the initialized bytes from an address on. */
    method GetLengthOfKnownState(start: nat, maxLength: nat) returns (n: nat)
      requires Contains(View(), start, maxLength)
      ensures n <= maxLength
      ensures var bytes := ShadowBytes(View(), start, maxLength);
              (forall k | 0 <= k < n :: bytes[k] == INITIALIZED) && (n < maxLength ==> bytes[n] != INITIALIZED)
    {
      var bytes := ShadowBytes(View(), start, maxLength);
      n := 0;
      while n < maxLength && bytes[n] == INITIALIZED
        invariant n <= maxLength && forall k | 0 <= k < n :: bytes[k] == INITIALIZED
      {
        n := n + 1;
      }
    }
  }
}
