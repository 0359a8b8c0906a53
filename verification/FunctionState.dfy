/** The state of one function invocation, updated in place.
    Every method is proved against the function of the same step in FrameModel, which sees the packed
    list of cleared blocks as a list of jumps. */
module FunctionState {
  import opened Common
  import opened FrameModel
  import opened TraceLog
  import opened Replay

  datatype JumpRecord = JumpRecord(fromBlock: nat, numCleared: nat)

  datatype ClearedBlock = ClearedBlock(block: nat, store: Store)

  function Stores(cleared: seq<ClearedBlock>): map<nat, Store> {
    if cleared == [] then map[] else Stores(cleared[1..])[cleared[0].block := cleared[0].store]
  }

  lemma NoStores()
    ensures Stores([]) == map[]
  {
  }

  lemma TakeLast(s: seq<ClearedBlock>, n: nat)
    requires 0 < n <= |s|
    ensures s[n - 1..] == [s[n - 1]] + s[n..] && s[..n][..n - 1] == s[..n - 1] && s[..n][n - 1] == s[n - 1]
  {
  }

  lemma MergePut(a: map<nat, Store>, b: map<nat, Store>, k: nat, v: Store)
    ensures (a + b)[k := v] == a + b[k := v]
  {
  }

  lemma StoresFirst(c: ClearedBlock, rest: seq<ClearedBlock>)
    ensures Stores([c] + rest) == Stores(rest)[c.block := c.store]
  {
    assert ([c] + rest)[1..] == rest;
  }

  lemma {:induction false} StoresAppend(cleared: seq<ClearedBlock>, c: ClearedBlock)
    requires c.block !in Stores(cleared)
    ensures Stores(cleared + [c]) == Stores(cleared)[c.block := c.store]
  {
    if cleared == [] {
      assert cleared + [c] == [c];
      assert [c][1..] == [];
    } else {
      assert cleared[0].block in Stores(cleared);
      assert Stores(cleared[1..]).Keys <= Stores(cleared).Keys;
      StoresAppend(cleared[1..], c);
      assert (cleared + [c])[1..] == cleared[1..] + [c];
      assert (cleared + [c])[0] == cleared[0];
    }
  }

  /** The two vectors of a function state encode its list of jumps: each jump owns the number of
      cleared blocks that it recorded, the last jump the last ones. */
  ghost predicate Encodes(records: seq<JumpRecord>, cleared: seq<ClearedBlock>, jumps: seq<Jump>)
    decreases |jumps|
  {
    if jumps == [] then records == [] && cleared == []
    else
      && |records| == |jumps|
      && var j, r := jumps[|jumps| - 1], records[|jumps| - 1];
         && r.fromBlock == j.from
         && r.numCleared <= |cleared|
         && Stores(cleared[|cleared| - r.numCleared..]) == j.cleared
         && Encodes(records[..|jumps| - 1], cleared[..|cleared| - r.numCleared], jumps[..|jumps| - 1])
  }

  lemma EncodesPush(records: seq<JumpRecord>, cleared: seq<ClearedBlock>, jumps: seq<Jump>, from: nat,
                    more: seq<ClearedBlock>)
    requires Encodes(records, cleared, jumps)
    ensures Encodes(records + [JumpRecord(from, |more|)], cleared + more, jumps + [Jump(from, Stores(more))])
  {
    assert (cleared + more)[|cleared|..] == more;
    assert (cleared + more)[..|cleared|] == cleared;
    assert (records + [JumpRecord(from, |more|)])[..|jumps|] == records;
    assert (jumps + [Jump(from, Stores(more))])[..|jumps|] == jumps;
  }

  class FunctionState {
    const lookup: Function
    const start: nat
    const fn: nat
    var activeInstruction: Option<nat>
    var activeInstructionComplete: bool
    var allocas: seq<AllocaState>
    var paramByVals: seq<ByVal>
    var runtimeErrors: seq<ErrorState>
    var activeBlocks: map<nat, Store>
    var backwardsJumps: seq<JumpRecord>
    var clearedBlocks: seq<ClearedBlock>
    /** The jumps that the last two encode. */
    ghost var jumps: seq<Jump>

    ghost predicate Valid()
      reads this
    {
      && lookup.Valid()
      && (activeInstruction.Some? ==> activeInstruction.value < |lookup.blockOf|)
      && Encodes(backwardsJumps, clearedBlocks, jumps)
    }

    ghost function Blocks(): Blocks
      reads this
    {
      FrameModel.Blocks(activeInstruction, activeInstructionComplete, activeBlocks, jumps)
    }

    ghost function View(): Frame
      reads this
    {
      Frame(start, fn, Blocks(), allocas, paramByVals, runtimeErrors)
    }

    constructor (withStart: nat, withFn: nat, withLookup: Function)
      requires withLookup.Valid()
      ensures Valid() && lookup == withLookup && View() == NewFrame(withStart, withFn)
    {
      lookup, start, fn := withLookup, withStart, withFn;
      activeInstruction, activeInstructionComplete := None, false;
      allocas, paramByVals, runtimeErrors := [], [], [];
      activeBlocks, backwardsJumps, clearedBlocks := map[], [], [];
      jumps := [];
    }

    /** Move the active blocks from `low` to `high` to the end of the cleared blocks. */
    method ClearBlocks(low: nat, high: nat) returns (cleared: seq<ClearedBlock>)
      requires low <= high
      modifies this`activeBlocks, this`clearedBlocks
      ensures Stores(cleared) == Within(old(activeBlocks), low, high)
      ensures activeBlocks == old(activeBlocks) - Stores(cleared).Keys
      ensures clearedBlocks == old(clearedBlocks) + cleared
    {
      cleared := [];
      var b := low;
      while b <= high
        invariant low <= b <= high + 1
        invariant Stores(cleared) == map k | k in old(activeBlocks) && low <= k < b :: old(activeBlocks)[k]
        invariant activeBlocks == old(activeBlocks) - Stores(cleared).Keys
        invariant clearedBlocks == old(clearedBlocks) + cleared
      {
        if b in activeBlocks {
          var c := ClearedBlock(b, activeBlocks[b]);
          StoresAppend(cleared, c);
          cleared, clearedBlocks := cleared + [c], clearedBlocks + [c];
          activeBlocks := activeBlocks - {b};
        }
        b := b + 1;
      }
    }

    method ForwardingToInstruction(index: nat)
      requires Valid() && index < |lookup.blockOf|
      modifies this
      ensures Valid() && View() == old(View()).(blocks := Forwarding(lookup, old(Blocks()), index))
    {
      var block := lookup.blockOf[index];
      if activeInstruction.Some? && index < activeInstruction.value {
        var current := lookup.blockOf[activeInstruction.value];
        var cleared := ClearBlocks(block, current);
        backwardsJumps := backwardsJumps + [JumpRecord(current, |cleared|)];
        jumps := jumps + [Jump(current, Stores(cleared))];
        EncodesPush(old(backwardsJumps), old(clearedBlocks), old(jumps), current, cleared);
      }
      if block !in activeBlocks {
        activeBlocks := activeBlocks[block := map[]];
      }
    }

    /** Move the last cleared blocks back to the active ones. */
    method UnclearBlocks(count: nat)
      requires count <= |clearedBlocks|
      modifies this`activeBlocks, this`clearedBlocks
      ensures clearedBlocks == old(clearedBlocks)[..|old(clearedBlocks)| - count]
      ensures activeBlocks == old(activeBlocks) + Stores(old(clearedBlocks)[|old(clearedBlocks)| - count..])
    {
      hide Stores;
      ghost var n := |clearedBlocks|;
      NoStores();
      assert clearedBlocks[n..] == [] && clearedBlocks[..n] == clearedBlocks;
      var i := 0;
      while i < count
        invariant i <= count
        invariant clearedBlocks == old(clearedBlocks)[..n - i]
        invariant activeBlocks == old(activeBlocks) + Stores(old(clearedBlocks)[n - i..])
      {
        var top := clearedBlocks[|clearedBlocks| - 1];
        TakeLast(old(clearedBlocks), n - i);
        StoresFirst(top, old(clearedBlocks)[n - i..]);
        MergePut(old(activeBlocks), Stores(old(clearedBlocks)[n - i..]), top.block, top.store);
        activeBlocks := activeBlocks[top.block := top.store];
        clearedBlocks := clearedBlocks[..|clearedBlocks| - 1];
        i := i + 1;
      }
    }

    method RewindingToInstruction(index: nat)
      requires Valid() && activeInstruction.Some? && index < |lookup.blockOf|
      requires activeInstruction.value < index ==> jumps != [] && jumps[|jumps| - 1].from == lookup.blockOf[index]
      modifies this
      ensures Valid()
      ensures View() == old(View()).(blocks :=
                if old(activeInstruction).value < index
                then old(Blocks()).(stores := old(activeBlocks) + old(jumps)[|old(jumps)| - 1].cleared,
                                    jumps := old(jumps)[..|old(jumps)| - 1])
                else old(Blocks()))
    {
      if activeInstruction.value < index {
        UnclearBlocks(backwardsJumps[|backwardsJumps| - 1].numCleared);
        backwardsJumps := backwardsJumps[..|backwardsJumps| - 1];
        jumps := jumps[..|jumps| - 1];
      }
    }

    method SetValue(index: nat, value: Value)
      requires Valid() && index < |lookup.blockOf| && lookup.blockOf[index] in activeBlocks
      requires var store := activeBlocks[lookup.blockOf[index]];
               lookup.slots[index].DataSlot? && !value.APFloat? && index in store ==> store[index].Equals(value)
      modifies this
      ensures Valid()
      ensures var b := old(Blocks());
              View() == old(View()).(blocks :=
                if Storable(lookup, Step(index, Some(value), true))
                then b.(stores := b.stores[lookup.blockOf[index] :=
                          FrameModel.SetValue(b.stores[lookup.blockOf[index]], index, value)])
                else b)
    {
      var block := lookup.blockOf[index];
      if value.APFloat? {
        if lookup.slots[index].APFloatSlot? {
          var store: Store := activeBlocks[block];
          activeBlocks := activeBlocks[block := store[index := value]];
        }
      } else if lookup.slots[index].DataSlot? {
        var store: Store := activeBlocks[block];
        if index in store {
          return;
        }
        activeBlocks := activeBlocks[block := store[index := value]];
      }
    }

    method SetActiveInstruction(index: nat, complete: bool)
      requires Valid() && index < |lookup.blockOf|
      modifies this
      ensures Valid()
      ensures View() == old(View()).(blocks := old(Blocks()).(active := Some(index), complete := complete))
    {
      activeInstruction, activeInstructionComplete := Some(index), complete;
    }

    method ClearActiveInstruction()
      requires Valid()
      modifies this
      ensures Valid() && View() == old(View()).(blocks := old(Blocks()).(active := None))
    {
      activeInstruction := None;
    }

    /** The first by-value area that contains the address is dropped, if there is one. */
    method RemoveByValArea(address: nat)
      requires Valid()
      modifies this
      ensures Valid() && View() == old(View()).(byVals := RemoveByVal(old(paramByVals), address))
    {
      var i := 0;
      while i < |paramByVals| && !paramByVals[i].Contains(address)
        invariant i <= |paramByVals|
        invariant RemoveByVal(paramByVals, address) == paramByVals[..i] + RemoveByVal(paramByVals[i..], address)
      {
        i := i + 1;
      }
      if i < |paramByVals| {
        paramByVals := paramByVals[..i] + paramByVals[i + 1..];
      }
    }
  }
}
