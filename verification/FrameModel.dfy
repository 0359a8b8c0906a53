/** The values held by one function invocation: a store per active basic block, and those set aside by jumps back. */
module FrameModel {
  import opened Common

  /** How a block store keeps the value of an instruction. */
  datatype Slot = NoSlot | DataSlot | APFloatSlot

  /** The source's indexed view of a function: for each instruction its basic block, in layout
      order, and its slot. */
  datatype Function = Function(blockOf: seq<nat>, slots: seq<Slot>)
  {
    ghost predicate Valid() {
      && |blockOf| == |slots|
      && forall i, j | 0 <= i < j < |blockOf| :: blockOf[i] <= blockOf[j]
    }
  }

  /** Floating point values are kept as their bits. */
  datatype Value =
    | UInt64(bits: nat)
    | Ptr(address: nat)
    | Float(bits: nat)
    | Double(bits: nat)
    | APFloat(bits: nat)
  {
    predicate IsNaN() {
      if Float? then IsSingleNaN(bits) else Double? && IsDoubleNaN(bits)
    }

    /** The comparison `==` of the type: no NaN is equal to itself, and the two zeros are equal. */
    predicate Equals(v: Value) {
      if Float? && v.Float? then SingleEquals(bits, v.bits)
      else if Double? && v.Double? then DoubleEquals(bits, v.bits)
      else this == v
    }
  }

  lemma EqualsItself(v: Value)
    ensures v.Equals(v) <==> !v.IsNaN()
  {
    hide IsSingleNaN, IsDoubleNaN;
  }

  /** An instruction event; `complete` is false for PreInstruction only. */
  datatype Step = Step(index: nat, value: Option<Value>, complete: bool)

  type Store = map<nat, Value>

  datatype Jump = Jump(from: nat, cleared: map<nat, Store>)

  datatype Blocks = Blocks(active: Option<nat>, complete: bool, stores: map<nat, Store>, jumps: seq<Jump>)

  const NoBlocks := Blocks(None, false, map[], [])

  // ---------------------------------------------------------------- forward

  function Within(stores: map<nat, Store>, low: nat, high: nat): map<nat, Store> {
    map k | k in stores && low <= k <= high :: stores[k]
  }

  /** Set aside every active block from `low` to `high`. */
  function ClearBlocks(b: Blocks, low: nat, high: nat): Blocks {
    var cleared := Within(b.stores, low, high);
    b.(stores := b.stores - cleared.Keys, jumps := b.jumps + [Jump(high, cleared)])
  }

  function Forwarding(f: Function, b: Blocks, index: nat): (r: Blocks)
    requires index < |f.blockOf| && (b.active.Some? ==> b.active.value < |f.blockOf|)
    ensures f.blockOf[index] in r.stores && r.active == b.active && r.complete == b.complete
  {
    var c := if b.active.Some? && index < b.active.value
             then ClearBlocks(b, f.blockOf[index], f.blockOf[b.active.value])
             else b;
    if f.blockOf[index] in c.stores then c
    else c.(stores := c.stores[f.blockOf[index] := map[]])
  }

  predicate Storable(f: Function, step: Step)
    requires step.index < |f.slots|
  {
    && step.value.Some?
    && f.slots[step.index] == if step.value.value.APFloat? then APFloatSlot else DataSlot
  }

  /** A value that is already present is kept, except that a long double is overwritten. */
  function SetValue(s: Store, index: nat, value: Value): Store {
    if index in s && !value.APFloat? then s else s[index := value]
  }

  /** What the store of a block asserts: a value that is already present is equal to the one to be set. */
  predicate Settable(f: Function, b: Blocks, step: Step)
    requires f.Valid() && step.index < |f.blockOf| && (b.active.Some? ==> b.active.value < |f.blockOf|)
  {
    Storable(f, step) && !step.value.value.APFloat? ==>
      var store := Forwarding(f, b, step.index).stores[f.blockOf[step.index]];
      step.index in store ==> store[step.index].Equals(step.value.value)
  }

  function Advance(f: Function, b: Blocks, step: Step): (r: Blocks)
    requires f.Valid() && step.index < |f.blockOf| && (b.active.Some? ==> b.active.value < |f.blockOf|)
    ensures r.active == Some(step.index) && r.complete == step.complete
  {
    var c := Forwarding(f, b, step.index);
    var k := f.blockOf[step.index];
    var d := if Storable(f, step) then c.(stores := c.stores[k := SetValue(c.stores[k], step.index, step.value.value)])
             else c;
    d.(active := Some(step.index), complete := step.complete)
  }

  // ---------------------------------------------------------------- backward

  predicate CanRetreat(f: Function, b: Blocks, previous: Option<Step>)
  {
    && b.active.Some?
    && (previous.Some? && b.active.value < previous.value.index ==>
          && previous.value.index < |f.blockOf|
          && b.jumps != []
          && b.jumps[|b.jumps| - 1].from == f.blockOf[previous.value.index])
  }

  /** Make the previous instruction active, and put back what a backward jump had set aside. */
  function Retreat(f: Function, b: Blocks, previous: Option<Step>): Blocks
    requires CanRetreat(f, b, previous)
  {
    match previous
    case None => b.(active := None)
    case Some(p) =>
      var c := if b.active.value < p.index
               then b.(stores := b.stores + b.jumps[|b.jumps| - 1].cleared, jumps := b.jumps[..|b.jumps| - 1])
               else b;
      c.(active := Some(p.index), complete := p.complete)
  }

  // ---------------------------------------------------------------- forward replay

  /** Indices are in range, only a completed instruction has a value, and an index is repeated only
      to complete an execution. */
  ghost predicate Executable(f: Function, steps: seq<Step>) {
    && f.Valid()
    && (forall k | 0 <= k < |steps| :: steps[k].index < |f.blockOf|)
    && (forall k | 0 <= k < |steps| :: steps[k].value.Some? ==> steps[k].complete)
    && (forall i, k | 0 <= i < k < |steps| && k == i + 1 :: steps[k].index == steps[i].index ==> !steps[i].complete)
  }

  ghost function Run(f: Function, steps: seq<Step>): (r: Blocks)
    requires Executable(f, steps)
    ensures steps == [] ==> r == NoBlocks
    ensures steps != [] ==> r.active == Some(steps[|steps| - 1].index) && r.complete == steps[|steps| - 1].complete
  {
    if steps == [] then NoBlocks
    else
      var before := steps[..|steps| - 1];
      Advance(f, Run(f, before), steps[|steps| - 1])
  }

  ghost function RunTo(f: Function, steps: seq<Step>, k: nat): (r: Blocks)
    requires Executable(f, steps) && k <= |steps|
    ensures k == 0 ==> r == NoBlocks
    ensures k > 0 ==> r.active == Some(steps[k - 1].index) && r.complete == steps[k - 1].complete
  {
    Run(f, steps[..k])
  }

  lemma RunNext(f: Function, steps: seq<Step>, k: nat)
    requires Executable(f, steps) && k < |steps|
    ensures RunTo(f, steps, k + 1) == Advance(f, RunTo(f, steps, k), steps[k])
  {
    assert steps[..k + 1][..k] == steps[..k];
  }

  ghost function StoreAt(b: Blocks, block: nat): Store {
    if block in b.stores then b.stores[block] else map[]
  }

  ghost predicate Jumps(steps: seq<Step>, k: nat) {
    0 < k < |steps| && steps[k].index < steps[k - 1].index
  }

  /** Step `k` jumps back over `block`. */
  ghost predicate Clears(f: Function, steps: seq<Step>, k: nat, block: nat)
    requires Executable(f, steps)
  {
    Jumps(steps, k) && f.blockOf[steps[k].index] <= block <= f.blockOf[steps[k - 1].index]
  }

  /** Active blocks hold values of their own instructions only, none of them ahead of execution. */
  ghost predicate Behind(f: Function, b: Blocks)
    requires f.Valid() && (b.active.Some? ==> b.active.value < |f.blockOf|)
  {
    && (b.active.None? ==> b.stores == map[])
    && (forall k, i | k in b.stores && i in b.stores[k] ::
          i < |f.blockOf| && f.blockOf[i] == k && (i < b.active.value || (i == b.active.value && b.complete)))
  }

  lemma AdvanceStaysBehind(f: Function, b: Blocks, step: Step)
    requires f.Valid() && step.index < |f.blockOf| && (b.active.Some? ==> b.active.value < |f.blockOf|)
    requires Behind(f, b) && (step.value.Some? ==> step.complete)
    requires b.active == Some(step.index) ==> !b.complete
    ensures Behind(f, Advance(f, b, step))
  {
  }

  lemma NothingIsBehind(f: Function)
    requires f.Valid()
    ensures Behind(f, NoBlocks)
  {
  }

  lemma {:induction false} RunStaysBehind(f: Function, steps: seq<Step>)
    requires Executable(f, steps)
    ensures Behind(f, Run(f, steps))
  {
    hide Advance, Behind;
    if steps == [] {
      NothingIsBehind(f);
    } else {
      RunStaysBehind(f, steps[..|steps| - 1]);
      AdvanceStaysBehind(f, Run(f, steps[..|steps| - 1]), steps[|steps| - 1]);
    }
  }

  /** Between two clears of its block an instruction runs at most once: forward replay never finds
      the slot that it is about to set already occupied. */
  lemma RunsOnce(f: Function, steps: seq<Step>, k: nat)
    requires Executable(f, steps) && k < |steps| && steps[k].complete
    ensures var c := Forwarding(f, RunTo(f, steps, k), steps[k].index);
            steps[k].index !in c.stores[f.blockOf[steps[k].index]]
  {
    RunStaysBehind(f, steps[..k]);
  }

  // ---------------------------------------------------------------- what a walked frame may hold

  ghost predicate Extends(s: Store, t: Store) {
    forall i | i in t :: i in s && s[i] == t[i]
  }

  ghost predicate Agrees(s: Store, t: Store) {
    forall i | i in t && i in s :: s[i] == t[i]
  }

  /** What `block` holds in forward replay when it is next cleared, or at the end. */
  ghost function Eventual(f: Function, steps: seq<Step>, k: nat, block: nat): Store
    requires Executable(f, steps) && k <= |steps|
    decreases |steps| - k
  {
    if k == |steps| || Clears(f, steps, k, block) then StoreAt(RunTo(f, steps, k), block)
    else Eventual(f, steps, k + 1, block)
  }

  lemma {:induction false} NowIsInEventual(f: Function, steps: seq<Step>, k: nat, block: nat)
    requires Executable(f, steps) && k <= |steps|
    ensures Extends(Eventual(f, steps, k, block), StoreAt(RunTo(f, steps, k), block))
    decreases |steps| - k
  {
    if k < |steps| && !Clears(f, steps, k, block) {
      NowIsInEventual(f, steps, k + 1, block);
      RunNext(f, steps, k);
      if steps[k].complete {
        RunsOnce(f, steps, k);
      }
      assert Extends(StoreAt(RunTo(f, steps, k + 1), block), StoreAt(RunTo(f, steps, k), block));
    }
  }

  /** The blocks set aside by the jump at step `k`: at least those that forward replay sets aside
      there, with at least their values. */
  ghost predicate JumpTracks(f: Function, j: Jump, steps: seq<Step>, k: nat)
    requires Executable(f, steps) && Jumps(steps, k)
  {
    && j.from == f.blockOf[steps[k - 1].index]
    && (forall b | b in j.cleared :: Clears(f, steps, k, b))
    && (forall b | b in RunTo(f, steps, k).stores && Clears(f, steps, k, b) ::
          b in j.cleared && Extends(j.cleared[b], RunTo(f, steps, k).stores[b]))
  }

  ghost predicate JumpsTrack(f: Function, jumps: seq<Jump>, steps: seq<Step>, k: nat)
    requires Executable(f, steps) && k <= |steps|
  {
    if k == 0 then jumps == []
    else if Jumps(steps, k - 1) then
      && jumps != []
      && JumpTracks(f, jumps[|jumps| - 1], steps, k - 1)
      && JumpsTrack(f, jumps[..|jumps| - 1], steps, k - 1)
    else JumpsTrack(f, jumps, steps, k - 1)
  }

  /** The store part of the relation, one block at a time. */
  ghost predicate StoreTracks(f: Function, b: Blocks, steps: seq<Step>, k: nat, x: nat)
    requires Executable(f, steps) && k <= |steps|
  {
    && (x in RunTo(f, steps, k).stores ==> x in b.stores && Extends(b.stores[x], RunTo(f, steps, k).stores[x]))
    && (x in b.stores ==> Agrees(b.stores[x], Eventual(f, steps, k, x)))
  }

  /** The state of a frame after any walk that ends before step `k`: it holds every value that
      forward replay to `k` holds, and whatever else is left over from steps already undone agrees
      with what each block will come to hold. */
  ghost predicate Tracks(f: Function, b: Blocks, steps: seq<Step>, k: nat)
    requires Executable(f, steps) && k <= |steps|
  {
    var r := RunTo(f, steps, k);
    && b.active == r.active
    && (b.active.Some? ==> b.complete == r.complete)
    && (forall x :: StoreTracks(f, b, steps, k, x))
    && JumpsTrack(f, b.jumps, steps, k)
  }

  /** Does `step` jump back over `block`? */
  ghost predicate JumpsOver(f: Function, b: Blocks, step: Step, block: nat) {
    && b.active.Some? && step.index < b.active.value < |f.blockOf|
    && f.blockOf[step.index] <= block <= f.blockOf[b.active.value]
  }

  /** The jumps and the other blocks after a step. */
  lemma AdvanceElsewhere(f: Function, b: Blocks, step: Step)
    requires f.Valid() && step.index < |f.blockOf| && (b.active.Some? ==> b.active.value < |f.blockOf|)
    ensures var a, x := Advance(f, b, step), f.blockOf[step.index];
            && x in a.stores
            && (forall y | y != x :: y in a.stores <==> y in b.stores && !JumpsOver(f, b, step, y))
            && (forall y | y != x && y in a.stores :: a.stores[y] == b.stores[y])
            && a.jumps == (if b.active.Some? && step.index < b.active.value
                           then b.jumps + [Jump(f.blockOf[b.active.value],
                                                Within(b.stores, x, f.blockOf[b.active.value]))]
                           else b.jumps)
  {
  }

  /** The store of the step's own block after the step. */
  lemma AdvanceHere(f: Function, b: Blocks, step: Step)
    requires f.Valid() && step.index < |f.blockOf| && (b.active.Some? ==> b.active.value < |f.blockOf|)
    ensures var a, x := Advance(f, b, step), f.blockOf[step.index];
            var s := if JumpsOver(f, b, step, x) then map[] else StoreAt(b, x);
            && x in a.stores
            && a.stores[x] == if Storable(f, step) then SetValue(s, step.index, step.value.value) else s
  {
  }

  lemma AdvanceTracksJumps(f: Function, b: Blocks, steps: seq<Step>, k: nat)
    requires Executable(f, steps) && k < |steps| && Tracks(f, b, steps, k)
    ensures JumpsTrack(f, Advance(f, b, steps[k]).jumps, steps, k + 1)
  {
    AdvanceElsewhere(f, b, steps[k]);
    var jumps := Advance(f, b, steps[k]).jumps;
    if Jumps(steps, k) {
      assert jumps[..|jumps| - 1] == b.jumps;
      forall x | x in RunTo(f, steps, k).stores && Clears(f, steps, k, x)
        ensures x in b.stores && Extends(b.stores[x], RunTo(f, steps, k).stores[x])
      {
        assert StoreTracks(f, b, steps, k, x);
      }
    }
  }

  lemma AdvanceTracksElsewhere(f: Function, b: Blocks, steps: seq<Step>, k: nat, y: nat)
    requires Executable(f, steps) && k < |steps| && StoreTracks(f, b, steps, k, y)
    requires b.active == RunTo(f, steps, k).active && y != f.blockOf[steps[k].index]
    ensures StoreTracks(f, Advance(f, b, steps[k]), steps, k + 1, y)
  {
    hide Advance, Forwarding, Run;
    RunNext(f, steps, k);
    AdvanceElsewhere(f, b, steps[k]);
    AdvanceElsewhere(f, RunTo(f, steps, k), steps[k]);
  }

  lemma AdvanceTracksHere(f: Function, b: Blocks, steps: seq<Step>, k: nat)
    requires Executable(f, steps) && k < |steps| && StoreTracks(f, b, steps, k, f.blockOf[steps[k].index])
    requires b.active == RunTo(f, steps, k).active
    ensures StoreTracks(f, Advance(f, b, steps[k]), steps, k + 1, f.blockOf[steps[k].index])
  {
    hide Advance, Forwarding, Run;
    var x := f.blockOf[steps[k].index];
    RunNext(f, steps, k);
    NowIsInEventual(f, steps, k + 1, x);
    AdvanceHere(f, b, steps[k]);
    AdvanceHere(f, RunTo(f, steps, k), steps[k]);
    if Storable(f, steps[k]) {
      RunsOnce(f, steps, k);
    }
    assert JumpsOver(f, b, steps[k], x) == Clears(f, steps, k, x);
  }

  lemma ForwardingHere(f: Function, b: Blocks, index: nat)
    requires f.Valid() && index < |f.blockOf| && (b.active.Some? ==> b.active.value < |f.blockOf|)
    ensures var x := f.blockOf[index];
            Forwarding(f, b, index).stores[x] ==
            if b.active.Some? && index < b.active.value && x <= f.blockOf[b.active.value] then map[] else StoreAt(b, x)
  {
  }

  /** A step can be taken again after it has been undone: its value is equal to itself, or execution jumps
      back, so that the block of the step is cleared once more. */
  ghost predicate Repeatable(f: Function, steps: seq<Step>, k: nat)
    requires Executable(f, steps) && k < |steps|
  {
    Storable(f, steps[k]) && steps[k].value.value.IsNaN() ==> Jumps(steps, k)
  }

  /** After any walk, a value left over from a step already undone is the value that the step sets again. */
  lemma TracksSettable(f: Function, b: Blocks, steps: seq<Step>, k: nat)
    requires Executable(f, steps) && k < |steps| && Tracks(f, b, steps, k) && Repeatable(f, steps, k)
    ensures steps[k].index < |f.blockOf| && (b.active.Some? ==> b.active.value < |f.blockOf|)
    ensures Settable(f, b, steps[k])
  {
    hide Run, Forwarding, Advance, JumpsTrack, Value.IsNaN, Value.Equals;
    var x, r := f.blockOf[steps[k].index], RunTo(f, steps, k);
    assert StoreTracks(f, b, steps, k, x);
    if Storable(f, steps[k]) {
      RunNext(f, steps, k);
      RunsOnceHere(f, steps, k);
      AdvanceHere(f, r, steps[k]);
      ForwardingHere(f, b, steps[k].index);
      NowIsInEventual(f, steps, k + 1, x);
      EqualsItself(steps[k].value.value);
    }
  }

  /** Otherwise it cannot: the value that it left in the store is not equal to itself. */
  lemma NotRepeatable(f: Function, steps: seq<Step>, k: nat)
    requires Executable(f, steps) && k < |steps| && !Repeatable(f, steps, k)
    ensures var previous := if k == 0 then None else Some(steps[k - 1]);
            && CanRetreat(f, RunTo(f, steps, k + 1), previous)
            && var b := Retreat(f, RunTo(f, steps, k + 1), previous);
               (b.active.Some? ==> b.active.value < |f.blockOf|) && !Settable(f, b, steps[k])
  {
    hide Run, Advance, IsSingleNaN, IsDoubleNaN, Value.Equals;
    RunNext(f, steps, k);
    RunsOnceHere(f, steps, k);
    var r, i, x := RunTo(f, steps, k + 1), steps[k].index, f.blockOf[steps[k].index];
    AdvanceHere(f, RunTo(f, steps, k), steps[k]);
    assert r.stores[x][i] == steps[k].value.value;
    var b := Retreat(f, r, if k == 0 then None else Some(steps[k - 1]));
    assert b.stores == r.stores;
    ForwardingHere(f, b, i);
    EqualsItself(steps[k].value.value);
  }

  /** Going forward keeps the relation. */
  lemma AdvanceTracks(f: Function, b: Blocks, steps: seq<Step>, k: nat)
    requires Executable(f, steps) && k < |steps| && Tracks(f, b, steps, k)
    ensures Tracks(f, Advance(f, b, steps[k]), steps, k + 1)
  {
    AdvanceTracksJumps(f, b, steps, k);
    RunNext(f, steps, k);
    var a, next := Advance(f, b, steps[k]), k + 1;
    forall y ensures StoreTracks(f, a, steps, next, y) {
      assert StoreTracks(f, b, steps, k, y);
      if y == f.blockOf[steps[k].index] {
        AdvanceTracksHere(f, b, steps, k);
      } else {
        AdvanceTracksElsewhere(f, b, steps, k, y);
      }
    }
  }

  /** Forward replay itself is such a state. */
  lemma {:induction false} RunTracks(f: Function, steps: seq<Step>, k: nat)
    requires Executable(f, steps) && k <= |steps|
    ensures Tracks(f, RunTo(f, steps, k), steps, k)
  {
    if k > 0 {
      RunTracks(f, steps, k - 1);
      AdvanceTracks(f, RunTo(f, steps, k - 1), steps, k - 1);
      RunNext(f, steps, k - 1);
    }
  }

  lemma RetreatTracksStores(f: Function, b: Blocks, steps: seq<Step>, k: nat, y: nat)
    requires Executable(f, steps) && 0 < k < |steps| && Tracks(f, b, steps, k + 1)
    requires CanRetreat(f, b, Some(steps[k - 1]))
    ensures StoreTracks(f, Retreat(f, b, Some(steps[k - 1])), steps, k, y)
  {
    var r := RunTo(f, steps, k);
    assert StoreTracks(f, b, steps, k + 1, y);
    RunNext(f, steps, k);
    AdvanceElsewhere(f, r, steps[k]);
    AdvanceHere(f, r, steps[k]);
    if Storable(f, steps[k]) {
      RunsOnce(f, steps, k);
    }
    assert JumpsOver(f, r, steps[k], y) == Clears(f, steps, k, y);
  }

  /** So does going back: the source's search for the previous instruction, and its unclearing of
      the blocks of a backward jump, land on the state before the step. */
  lemma RetreatTracks(f: Function, b: Blocks, steps: seq<Step>, k: nat)
    requires Executable(f, steps) && k < |steps| && Tracks(f, b, steps, k + 1)
    ensures var previous := if k == 0 then None else Some(steps[k - 1]);
            CanRetreat(f, b, previous) && Tracks(f, Retreat(f, b, previous), steps, k)
  {
    if k > 0 {
      var a := Retreat(f, b, Some(steps[k - 1]));
      forall y ensures StoreTracks(f, a, steps, k, y) {
        RetreatTracksStores(f, b, steps, k, y);
      }
    } else {
      forall y ensures StoreTracks(f, Retreat(f, b, None), steps, 0, y) {
        assert StoreTracks(f, b, steps, 1, y);
        assert Eventual(f, steps, 0, y) == Eventual(f, steps, 1, y);
      }
    }
  }

  // ---------------------------------------------------------------- reading values

  /** The value that the source's getters return for an instruction: nothing ahead of the active one. */
  function Answer(f: Function, b: Blocks, index: nat): Option<Value>
    requires index < |f.blockOf|
  {
    if b.active.None? || b.active.value < index || (b.active.value == index && !b.complete) then None
    else
      var block := f.blockOf[index];
      if block in b.stores && index in b.stores[block] then Some(b.stores[block][index]) else None
  }

  /** The value that the log gives an instruction: that of its last execution, unless execution has
      jumped back over its block since. */
  ghost function LastValue(f: Function, steps: seq<Step>, k: nat, index: nat): Option<Value>
    requires Executable(f, steps) && k <= |steps| && index < |f.blockOf|
  {
    if k == 0 then None
    else if steps[k - 1].index == index && Storable(f, steps[k - 1]) then steps[k - 1].value
    else if Clears(f, steps, k - 1, f.blockOf[index]) then None
    else LastValue(f, steps, k - 1, index)
  }

  ghost function Lookup(s: Store, index: nat): Option<Value> {
    if index in s then Some(s[index]) else None
  }

  lemma StoredStep(f: Function, steps: seq<Step>, k: nat, index: nat)
    requires Executable(f, steps) && k < |steps| && index < |f.blockOf|
    requires Lookup(StoreAt(RunTo(f, steps, k), f.blockOf[index]), index) == LastValue(f, steps, k, index)
    ensures Lookup(StoreAt(RunTo(f, steps, k + 1), f.blockOf[index]), index) == LastValue(f, steps, k + 1, index)
  {
    hide Forwarding, Advance, LastValue, RunTo;
    var r, x := RunTo(f, steps, k), f.blockOf[index];
    RunNext(f, steps, k);
    AdvanceElsewhere(f, r, steps[k]);
    AdvanceHere(f, r, steps[k]);
    if Storable(f, steps[k]) {
      RunsOnceHere(f, steps, k);
    }
    assert JumpsOver(f, r, steps[k], x) == Clears(f, steps, k, x);
    LastValueStep(f, steps, k, index);
  }

  lemma LastValueStep(f: Function, steps: seq<Step>, k: nat, index: nat)
    requires Executable(f, steps) && k < |steps| && index < |f.blockOf|
    ensures LastValue(f, steps, k + 1, index) ==
            if steps[k].index == index && Storable(f, steps[k]) then steps[k].value
            else if Clears(f, steps, k, f.blockOf[index]) then None
            else LastValue(f, steps, k, index)
  {
  }

  lemma RunsOnceHere(f: Function, steps: seq<Step>, k: nat)
    requires Executable(f, steps) && k < |steps| && steps[k].complete
    ensures var x := f.blockOf[steps[k].index];
            JumpsOver(f, RunTo(f, steps, k), steps[k], x) || steps[k].index !in StoreAt(RunTo(f, steps, k), x)
  {
    RunsOnce(f, steps, k);
  }

  lemma {:induction false} StoredIsLast(f: Function, steps: seq<Step>, k: nat, index: nat)
    requires Executable(f, steps) && k <= |steps| && index < |f.blockOf|
    ensures Lookup(StoreAt(RunTo(f, steps, k), f.blockOf[index]), index) == LastValue(f, steps, k, index)
  {
    if k > 0 {
      StoredIsLast(f, steps, k - 1, index);
      StoredStep(f, steps, k - 1, index);
    }
  }

  /** Forward replay answers exactly what the log says. */
  lemma AnswerIsLast(f: Function, steps: seq<Step>, k: nat, index: nat)
    requires Executable(f, steps) && k <= |steps| && index < |f.blockOf|
    ensures Answer(f, RunTo(f, steps, k), index) == LastValue(f, steps, k, index)
  {
    hide Run, LastValue;
    StoredIsLast(f, steps, k, index);
    RunStaysBehind(f, steps[..k]);
    assert Behind(f, RunTo(f, steps, k));
  }

  /** A frame reached by any walk answers every value that the log gives at that point. */
  lemma WalkedAnswers(f: Function, b: Blocks, steps: seq<Step>, k: nat, index: nat)
    requires Executable(f, steps) && k <= |steps| && Tracks(f, b, steps, k) && index < |f.blockOf|
    requires LastValue(f, steps, k, index).Some?
    ensures Answer(f, b, index) == LastValue(f, steps, k, index)
  {
    hide Run, LastValue, Eventual;
    AnswerIsLast(f, steps, k, index);
    assert StoreTracks(f, b, steps, k, f.blockOf[index]);
  }

  // Four blocks of one instruction each. Execution skips block 2, jumps back, and then reaches it.
  const SKIPPING := Function([0, 1, 2, 3], [NoSlot, NoSlot, DataSlot, NoSlot])
  const SKIPPING_STEPS := [Step(0, None, true), Step(1, None, true), Step(3, None, true), Step(0, None, true),
                           Step(2, Some(UInt64(7)), true)]
  const SKIPPING_JUMP := Jump(3, map[0 := map[], 1 := map[], 3 := map[]])

  lemma SkippingBefore()
    ensures Executable(SKIPPING, SKIPPING_STEPS)
    ensures RunTo(SKIPPING, SKIPPING_STEPS, 3) == Blocks(Some(3), true, SKIPPING_JUMP.cleared, [])
  {
    RunNext(SKIPPING, SKIPPING_STEPS, 0);
    RunNext(SKIPPING, SKIPPING_STEPS, 1);
    RunNext(SKIPPING, SKIPPING_STEPS, 2);
  }

  const SKIPPING_END := Blocks(Some(2), true, map[0 := map[], 2 := map[2 := UInt64(7)]], [SKIPPING_JUMP])

  lemma SkippingSteps()
    ensures Advance(SKIPPING, Blocks(Some(3), true, SKIPPING_JUMP.cleared, []), Step(0, None, true)) ==
            Blocks(Some(0), true, map[0 := map[]], [SKIPPING_JUMP])
    ensures Advance(SKIPPING, Blocks(Some(0), true, map[0 := map[]], [SKIPPING_JUMP]),
                    Step(2, Some(UInt64(7)), true)) == SKIPPING_END
  {
    assert Within(SKIPPING_JUMP.cleared, 0, 3) == SKIPPING_JUMP.cleared;
  }

  lemma SkippingAfter()
    ensures Executable(SKIPPING, SKIPPING_STEPS)
    ensures RunTo(SKIPPING, SKIPPING_STEPS, 5) == SKIPPING_END
  {
    hide Run, RunTo, Advance;
    SkippingBefore();
    RunNext(SKIPPING, SKIPPING_STEPS, 3);
    RunNext(SKIPPING, SKIPPING_STEPS, 4);
    SkippingSteps();
  }

  lemma SkippingBack()
    ensures CanRetreat(SKIPPING, SKIPPING_END, Some(SKIPPING_STEPS[3]))
    ensures var a := Retreat(SKIPPING, SKIPPING_END, Some(SKIPPING_STEPS[3]));
            && CanRetreat(SKIPPING, a, Some(SKIPPING_STEPS[2]))
            && Answer(SKIPPING, Retreat(SKIPPING, a, Some(SKIPPING_STEPS[2])), 2) == Some(UInt64(7))
  {
  }

  /** The converse fails: a store created after a backward jump outlives the removal of the jump when
      its block was not active before. Here block 2 runs only after the jump, and still answers once
      execution has been taken back to instruction 3, where it had been skipped. */
  lemma LeftoverAnswers() returns (b: Blocks)
    ensures Executable(SKIPPING, SKIPPING_STEPS)
    ensures CanRetreat(SKIPPING, RunTo(SKIPPING, SKIPPING_STEPS, 5), Some(SKIPPING_STEPS[3]))
    ensures var a := Retreat(SKIPPING, RunTo(SKIPPING, SKIPPING_STEPS, 5), Some(SKIPPING_STEPS[3]));
            CanRetreat(SKIPPING, a, Some(SKIPPING_STEPS[2])) && b == Retreat(SKIPPING, a, Some(SKIPPING_STEPS[2]))
    ensures Answer(SKIPPING, b, 2) == Some(UInt64(7))
    ensures LastValue(SKIPPING, SKIPPING_STEPS, 3, 2) == None
  {
    hide Run, RunTo, Retreat, CanRetreat, Answer, LastValue;
    SkippingBefore();
    SkippingAfter();
    SkippingBack();
    b := Retreat(SKIPPING, Retreat(SKIPPING, SKIPPING_END, Some(SKIPPING_STEPS[3])), Some(SKIPPING_STEPS[2]));
    AnswerIsLast(SKIPPING, SKIPPING_STEPS, 3, 2);
    SkippingNone();
  }

  lemma SkippingNone()
    ensures Answer(SKIPPING, Blocks(Some(3), true, SKIPPING_JUMP.cleared, []), 2) == None
  {
  }
}
