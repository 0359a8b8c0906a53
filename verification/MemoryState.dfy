/** The recreated memory of a process, updated in place.
    Every method is proved against the function of the same step in MemoryModel, which sees the three
    stacks of saved areas as one list. */
module MemoryState {
  import opened Common
  import M = MemoryModel

  datatype AreaType = Uninitialized | Partial | Complete

  /** What the three vectors of a history hold. */
  function Types(history: seq<M.Saved>): seq<AreaType> {
    if history == [] then []
    else
      var top := history[|history| - 1];
      Types(history[..|history| - 1]) + [KindOf(top)]
  }

  function SavedData(history: seq<M.Saved>): seq<Byte> {
    if history == [] then []
    else
      var top := history[|history| - 1];
      SavedData(history[..|history| - 1]) + (if top.Uninitialized? then [] else top.data)
  }

  function SavedInit(history: seq<M.Saved>): seq<Byte> {
    if history == [] then []
    else
      var top := history[|history| - 1];
      SavedInit(history[..|history| - 1]) + (if top.Partial? then top.init else [])
  }

  lemma Push(history: seq<M.Saved>, top: M.Saved)
    ensures Types(history + [top]) == Types(history) + [KindOf(top)]
    ensures SavedData(history + [top]) == SavedData(history) + (if top.Uninitialized? then [] else top.data)
    ensures SavedInit(history + [top]) == SavedInit(history) + (if top.Partial? then top.init else [])
  {
    assert (history + [top])[..|history|] == history;
  }

  function KindOf(saved: M.Saved): AreaType {
    if saved.Uninitialized? then Uninitialized else if saved.Partial? then Partial else Complete
  }

  /** Clearing what is clear already changes no byte, so the source does nothing for it. */
  lemma ClearUninitialized(a: M.Allocation, start: nat, length: nat)
    requires a.Valid() && a.Contains(start, length) && M.Save(a, start, length).Uninitialized?
    ensures M.ClearArea(a, start, length).init == a.init
  {
    var o := start - a.address;
    forall k | o <= k < o + length ensures a.init[k] == 0 {
      assert a.init[o..o + length][k - o] == a.init[k];
    }
  }

  class MemoryAllocation {
    var address: nat
    var size: nat
    var data: seq<Byte>
    var init: seq<Byte>
    var previousType: seq<AreaType>
    var previousData: seq<Byte>
    var previousInit: seq<Byte>
    /** The saved areas that the three vectors encode. */
    ghost var history: seq<M.Saved>

    ghost predicate Valid()
      reads this
    {
      && |data| == size
      && View().Valid()
      && previousType == Types(history)
      && previousData == SavedData(history)
      && previousInit == SavedInit(history)
    }

    ghost function View(): M.Allocation
      reads this
    {
      M.Allocation(address, data, init, history)
    }

    constructor (withAddress: nat, withSize: nat)
      ensures Valid() && View() == M.NewAllocation(withAddress, withSize)
    {
      address, size := withAddress, withSize;
      data, init := Fill(withSize, 0), Fill(withSize, 0);
      previousType, previousData, previousInit := [], [], [];
      history := [];
    }

    method ClearArea(start: nat, length: nat)
      requires Valid() && View().Contains(start, length)
      modifies this
      ensures Valid() && View() == M.ClearArea(old(View()), start, length)
    {
      ghost var before, saved := View(), M.Save(View(), start, length);
      var offset := start - address;
      var area := init[offset..offset + length];
      var kind := if M.Uniform(area, 0) then Uninitialized else if M.Uniform(area, 255) then Complete else Partial;
      assert kind == KindOf(saved);
      Push(history, saved);
      previousType := previousType + [kind];
      if kind == Partial {
        previousInit := previousInit + area;
      }
      if kind != Uninitialized {
        previousData := previousData + data[offset..offset + length];
        init := Splice(init, offset, Fill(length, 0));
      } else {
        ClearUninitialized(before, start, length);
      }
      history := history + [saved];
    }

    method AddBlock(start: nat, block: seq<Byte>)
      requires Valid() && View().Contains(start, |block|)
      modifies this
      ensures Valid()
      ensures View() == M.SetArea(M.ClearArea(old(View()), start, |block|), start, block, Fill(|block|, 255))
    {
      ClearArea(start, |block|);
      data := Splice(data, start - address, block);
      init := Splice(init, start - address, Fill(|block|, 255));
    }

    /** The writing half of `addArea`, after the area has been cleared. */
    method SetArea(start: nat, withData: seq<Byte>, withInit: seq<Byte>)
      requires Valid() && View().Contains(start, |withData|) && |withData| == |withInit|
      modifies this
      ensures Valid() && View() == M.SetArea(old(View()), start, withData, withInit)
    {
      data := Splice(data, start - address, withData);
      init := Splice(init, start - address, withInit);
    }

    method RewindArea(start: nat, length: nat)
      requires Valid() && M.CanRewind(View(), start, length)
      modifies this
      ensures Valid() && View() == M.RewindArea(old(View()), start, length)
    {
      hide Types, SavedData, SavedInit;
      var offset := start - address;
      ghost var top := history[|history| - 1];
      Push(history[..|history| - 1], top);
      assert history[..|history| - 1] + [top] == history;
      var kind := previousType[|previousType| - 1];
      previousType := previousType[..|previousType| - 1];
      if kind == Uninitialized {
        init := Splice(init, offset, Fill(length, 0));
      }
      if kind == Partial {
        var at := |previousInit| - length;
        init := Splice(init, offset, previousInit[at..]);
        previousInit := previousInit[..at];
      }
      if kind == Complete {
        init := Splice(init, offset, Fill(length, 255));
      }
      if kind != Uninitialized {
        var at := |previousData| - length;
        data := Splice(data, offset, previousData[at..]);
        previousData := previousData[..at];
      }
      history := history[..|history| - 1];
    }

    method Resize(newSize: nat)
      requires Valid()
      modifies this
      ensures Valid() && View() == M.Resize(old(View()), newSize)
    {
      data, init := M.Resized(data, newSize), M.Resized(init, newSize);
      size := newSize;
    }

    /** Shrinking clears the area that disappears, so that it can be rewound later. */
    method Resizing(newSize: nat)
      requires Valid()
      modifies this
      ensures Valid() && View() == M.Resizing(old(View()), newSize)
    {
      if newSize < size {
        ClearArea(address + newSize, size - newSize);
      }
      Resize(newSize);
    }

    method Unresizing(newSize: nat)
      requires Valid() && M.CanUnresize(View(), newSize)
      modifies this
      ensures Valid() && View() == M.Unresizing(old(View()), newSize)
    {
      var currentSize := size;
      Resize(newSize);
      if newSize > currentSize {
        RewindArea(address + currentSize, newSize - currentSize);
      }
    }
  }

  /** The allocations of a process, and those that were deallocated. */
  class MemoryState {
    var allocations: map<nat, MemoryAllocation>
    var previousAllocations: seq<MemoryAllocation>
    /** The value that the allocations represent. */
    ghost var view: M.Memory
    ghost var repr: set<object>

    ghost predicate Valid()
      reads this, repr
      ensures Valid() ==> this in repr && view.Valid()
    {
      && this in repr
      && view.Valid()
      && allocations.Keys == view.allocations.Keys
      && |previousAllocations| == |view.previous|
      && (forall a | a in allocations ::
            allocations[a] in repr && allocations[a].Valid() && allocations[a].View() == view.allocations[a])
      && (forall i | 0 <= i < |previousAllocations| ::
            && previousAllocations[i] in repr
            && previousAllocations[i].Valid() && previousAllocations[i].View() == view.previous[i])
      && (forall i, a | 0 <= i < |previousAllocations| && a in allocations :: previousAllocations[i] != allocations[a])
      && (forall i, j | 0 <= i < j < |previousAllocations| :: previousAllocations[i] != previousAllocations[j])
    }

    constructor ()
      ensures Valid() && view == M.EmptyMemory && fresh(repr)
    {
      allocations, previousAllocations, view := map[], [], M.EmptyMemory;
      repr := {this};
    }

    /** The allocation that contains an area. */
    method GetAllocation(start: nat, length: nat) returns (a: MemoryAllocation)
      requires Valid() && view.Holds(start, length)
      ensures view.Candidate(start) == Some(a.address)
      ensures a.address in allocations && allocations[a.address] == a
    {
      a := allocations[Floor(allocations.Keys, start).value];
    }

    method AllocationAdd(address: nat, size: nat)
      requires Valid() && M.CanDo(view, M.Add(address, size))
      modifies this
      ensures Valid() && view == M.Do(old(view), M.Add(address, size)) && fresh(repr - old(repr))
    {
      hide MemoryAllocation.Valid, MemoryAllocation.View, M.Memory.Valid;
      if size == 0 { return; }
      var a := new MemoryAllocation(address, size);
      allocations := allocations[address := a];
      view := M.Insert(view, a.View());
      repr := repr + {a};
    }

    method AllocationRemove(address: nat, size: nat)
      requires Valid() && M.CanDo(view, M.Remove(address, size))
      modifies this
      ensures Valid() && view == M.Do(old(view), M.Remove(address, size)) && repr == old(repr)
    {
      hide MemoryAllocation.View, MemoryAllocation.Valid;
      if size == 0 { return; }
      previousAllocations := previousAllocations + [allocations[address]];
      allocations := allocations - {address};
      view := M.Retire(view, address);
    }

    method AllocationUnremove(address: nat, size: nat)
      requires Valid() && M.CanUndo(view, M.Remove(address, size))
      modifies this
      ensures Valid() && view == M.Undo(old(view), M.Remove(address, size)) && repr == old(repr)
    {
      hide MemoryAllocation.Valid, MemoryAllocation.View, M.Memory.Valid;
      if size == 0 { return; }
      var top := previousAllocations[|previousAllocations| - 1];
      allocations := allocations[address := top];
      previousAllocations := previousAllocations[..|previousAllocations| - 1];
      view := M.Unretire(view, address);
    }

    method AllocationUnadd(address: nat, size: nat)
      requires Valid() && M.CanUndo(view, M.Add(address, size))
      modifies this
      ensures Valid() && view == M.Undo(old(view), M.Add(address, size)) && repr == old(repr)
    {
      hide MemoryAllocation.Valid, MemoryAllocation.View, M.Memory.Valid;
      if size == 0 { return; }
      allocations := allocations - {address};
      view := M.Erase(view, address);
    }

    /** Only the allocation at `key` has changed. */
    twostate lemma OneChanged(key: nat)
      requires old(Valid()) && key in old(allocations)
      requires allocations == old(allocations) && previousAllocations == old(previousAllocations)
      requires repr == old(repr) && unchanged(repr - {this, allocations[key]})
      requires allocations[key].Valid() && allocations[key].address == key
      requires view == M.With(old(view), key, allocations[key].View())
      ensures Valid()
    {
      forall a | a in allocations && a != key
        ensures allocations[a].Valid() && allocations[a].View() == view.allocations[a]
      {
        assert allocations[a] != allocations[key];
      }
    }

    method AllocationResize(address: nat, currentSize: nat, newSize: nat)
      requires Valid() && M.CanDo(view, M.Realloc(address, currentSize, newSize))
      modifies repr
      ensures Valid() && view == M.Do(old(view), M.Realloc(address, currentSize, newSize)) && fresh(repr - old(repr))
    {
      hide MemoryAllocation.Valid;
      if currentSize == 0 {
        AllocationAdd(address, newSize);
        return;
      } else if newSize == 0 {
        AllocationRemove(address, currentSize);
        return;
      }
      var a := allocations[address];
      a.Resizing(newSize);
      view := M.With(view, address, a.View());
      OneChanged(address);
    }

    method AllocationUnresize(address: nat, currentSize: nat, newSize: nat)
      requires Valid() && M.CanUndo(view, M.Realloc(address, newSize, currentSize))
      modifies repr
      ensures Valid() && view == M.Undo(old(view), M.Realloc(address, newSize, currentSize))
      ensures fresh(repr - old(repr))
    {
      hide MemoryAllocation.Valid;
      if currentSize == 0 {
        AllocationUnremove(address, newSize);
        return;
      } else if newSize == 0 {
        AllocationUnadd(address, currentSize);
        return;
      }
      var a := allocations[address];
      a.Unresizing(newSize);
      view := M.With(view, address, a.View());
      OneChanged(address);
    }

    method AddBlock(start: nat, block: seq<Byte>)
      requires Valid() && M.CanDo(view, M.Block(start, block))
      modifies repr
      ensures Valid() && view == M.Do(old(view), M.Block(start, block)) && repr == old(repr)
    {
      var a := GetAllocation(start, |block|);
      a.AddBlock(start, block);
      view := M.With(view, a.address, a.View());
      OneChanged(a.address);
    }

    method Rewind(start: nat, length: nat)
      requires Valid() && M.CanRewindAt(view, start, length)
      modifies repr
      ensures Valid() && view == M.RewindAt(old(view), start, length) && repr == old(repr)
    {
      var a := GetAllocation(start, length);
      a.RewindArea(start, length);
      view := M.With(view, a.address, a.View());
      OneChanged(a.address);
    }

    method ClearIn(a: MemoryAllocation, start: nat, size: nat)
      requires Valid() && a.address in allocations && allocations[a.address] == a
      requires view.allocations[a.address].Contains(start, size)
      modifies repr
      ensures Valid() && repr == old(repr) && allocations == old(allocations) && a.address == old(a.address)
      ensures view == M.With(old(view), a.address, M.ClearArea(old(view).allocations[a.address], start, size))
    {
      a.ClearArea(start, size);
      view := M.With(view, a.address, a.View());
      OneChanged(a.address);
    }

    method AddCopy(source: nat, destination: nat, size: nat)
      requires Valid() && view.Holds(source, size) && view.Holds(destination, size)
      modifies repr
      ensures Valid() && view == M.DoCopy(old(view), source, destination, size) && repr == old(repr)
    {
      hide MemoryAllocation.Valid, MemoryAllocation.View, M.Paste, M.ClearArea;
      var from := GetAllocation(source, size);
      var to := GetAllocation(destination, size);
      var i, k := from.address, to.address;
      ClearIn(to, destination, size);
      Paste(i, source - i, k, destination, size);
    }

    /** Write bytes of one allocation over an area of another. */
    method Paste(from: nat, offset: nat, to: nat, start: nat, size: nat)
      requires Valid() && from in allocations && to in allocations
      requires offset + size <= |view.allocations[from].data| && view.allocations[to].Contains(start, size)
      modifies repr
      ensures Valid() && view == M.Paste(old(view), from, offset, to, start, size) && repr == old(repr)
    {
      hide MemoryAllocation.Valid;
      var s := allocations[from];
      allocations[to].SetArea(start, s.data[offset..offset + size], s.init[offset..offset + size]);
      view := M.With(view, to, allocations[to].View());
      OneChanged(to);
    }

    method AddClear(start: nat, size: nat)
      requires Valid() && M.CanDo(view, M.Clear(start, size))
      modifies repr
      ensures Valid() && view == M.Do(old(view), M.Clear(start, size)) && repr == old(repr)
    {
      hide M.ClearArea;
      var key := Floor(allocations.Keys, start);
      if key.None? { return; }
      var a := allocations[key.value];
      if !(a.address <= start && start + size <= a.address + a.size) { return; }
      ClearIn(a, start, size);
    }

    method RemoveClear(start: nat, size: nat)
      requires Valid() && M.CanUndo(view, M.Clear(start, size))
      modifies repr
      ensures Valid() && view == M.Undo(old(view), M.Clear(start, size)) && repr == old(repr)
    {
      hide M.RewindArea;
      var key := Floor(allocations.Keys, start);
      if key.None? { return; }
      var a := allocations[key.value];
      if !(a.address <= start && start + size <= a.address + a.size) { return; }
      a.RewindArea(start, size);
      view := M.With(view, a.address, a.View());
      OneChanged(a.address);
    }
  }
}
