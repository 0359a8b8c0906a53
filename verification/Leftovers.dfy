/** Values left over by undone steps: when no walk over the steps of a frame answers more than the log says. */
module Leftovers {
  import opened Common
  import opened FrameModel
  import opened Moves

  // ---------------------------------------------------------------- what leaves a value

  /** Step `j` jumps back over block `x`, which has no store to be put back when the jump is undone, and step
      `m` then stores a value in the block before it is cleared again. */
  ghost predicate Leaves(f: Function, steps: seq<Step>, j: nat, x: nat, m: nat)
    requires Executable(f, steps)
  {
    && j <= m < |steps|
    && Clears(f, steps, j, x) && x !in RunTo(f, steps, j).stores
    && f.blockOf[steps[m].index] == x && Storable(f, steps[m])
    && NoneClears(f, steps, j + 1, m, x)
  }

  ghost predicate NoneClears(f: Function, steps: seq<Step>, low: nat, high: nat, x: nat)
    requires Executable(f, steps)
  {
    forall l | low <= l <= high :: !Clears(f, steps, l, x)
  }

  ghost predicate LeavesNothing(f: Function, steps: seq<Step>)
    requires Executable(f, steps)
  {
    forall j: nat, x: nat, m: nat :: !Leaves(f, steps, j, x, m)
  }

  // ---------------------------------------------------------------- nothing left over

  /** Every block holds only what it will come to hold before it is cleared. */
  ghost predicate ExactStore(f: Function, b: Blocks, steps: seq<Step>, k: nat, x: nat)
    requires Executable(f, steps) && k <= |steps|
  {
    x in b.stores ==> Extends(Eventual(f, steps, k, x), b.stores[x])
  }

  ghost predicate ExactJump(f: Function, j: Jump, steps: seq<Step>, k: nat)
    requires Executable(f, steps) && k <= |steps|
  {
    forall x | x in j.cleared :: Extends(StoreAt(RunTo(f, steps, k), x), j.cleared[x])
  }

  ghost predicate ExactJumps(f: Function, jumps: seq<Jump>, steps: seq<Step>, k: nat)
    requires Executable(f, steps) && k <= |steps|
  {
    if k == 0 then true
    else if Jumps(steps, k - 1) then
      jumps != [] && ExactJump(f, jumps[|jumps| - 1], steps, k - 1) &&
      ExactJumps(f, jumps[..|jumps| - 1], steps, k - 1)
    else ExactJumps(f, jumps, steps, k - 1)
  }

  ghost predicate Exact(f: Function, b: Blocks, steps: seq<Step>, k: nat)
    requires Executable(f, steps) && k <= |steps|
  {
    (forall x :: ExactStore(f, b, steps, k, x)) && ExactJumps(f, b.jumps, steps, k)
  }

  lemma EventualStep(f: Function, steps: seq<Step>, k: nat, x: nat)
    requires Executable(f, steps) && k < |steps|
    ensures Eventual(f, steps, k, x) ==
            if Clears(f, steps, k, x) then StoreAt(RunTo(f, steps, k), x) else Eventual(f, steps, k + 1, x)
  {
  }

  lemma AdvanceExactStore(f: Function, b: Blocks, steps: seq<Step>, k: nat, y: nat)
    requires Executable(f, steps) && k < |steps| && b.active == RunTo(f, steps, k).active
    requires ExactStore(f, b, steps, k, y)
    ensures ExactStore(f, Advance(f, b, steps[k]), steps, k + 1, y)
  {
    hide Advance, Forwarding, Run, RunTo, Eventual;
    var r, x := RunTo(f, steps, k), f.blockOf[steps[k].index];
    EventualStep(f, steps, k, y);
    assert JumpsOver(f, b, steps[k], y) == Clears(f, steps, k, y);
    AdvanceElsewhere(f, b, steps[k]);
    if y == x {
      AdvanceHere(f, b, steps[k]);
      StepIsEventual(f, steps, k);
    }
  }

  /** The value of a step is one that its block comes to hold. */
  lemma StepIsEventual(f: Function, steps: seq<Step>, k: nat)
    requires Executable(f, steps) && k < |steps|
    ensures Storable(f, steps[k]) ==>
              var e := Eventual(f, steps, k + 1, f.blockOf[steps[k].index]);
              steps[k].index in e && e[steps[k].index] == steps[k].value.value
  {
    hide Advance, Run, Eventual;
    if Storable(f, steps[k]) {
      var r := RunTo(f, steps, k);
      RunNext(f, steps, k);
      AdvanceHere(f, r, steps[k]);
      RunsOnceHere(f, steps, k);
      NowIsInEventual(f, steps, k + 1, f.blockOf[steps[k].index]);
    }
  }

  lemma AdvanceExactJumps(f: Function, b: Blocks, steps: seq<Step>, k: nat)
    requires Executable(f, steps) && k < |steps| && b.active == RunTo(f, steps, k).active
    requires Exact(f, b, steps, k)
    ensures ExactJumps(f, Advance(f, b, steps[k]).jumps, steps, k + 1)
  {
    hide Advance, Run, RunTo, Eventual;
    AdvanceElsewhere(f, b, steps[k]);
    var jumps := Advance(f, b, steps[k]).jumps;
    if Jumps(steps, k) {
      var last := jumps[|jumps| - 1];
      assert jumps[..|jumps| - 1] == b.jumps;
      forall y | y in last.cleared ensures Extends(StoreAt(RunTo(f, steps, k), y), last.cleared[y]) {
        assert ExactStore(f, b, steps, k, y);
        EventualStep(f, steps, k, y);
      }
    }
  }

  lemma AdvanceExact(f: Function, b: Blocks, steps: seq<Step>, k: nat)
    requires Executable(f, steps) && k < |steps| && b.active == RunTo(f, steps, k).active
    requires Exact(f, b, steps, k)
    ensures Exact(f, Advance(f, b, steps[k]), steps, k + 1)
  {
    hide Advance, Run, RunTo, ExactStore;
    AdvanceExactJumps(f, b, steps, k);
    var a, next := Advance(f, b, steps[k]), k + 1;
    forall y ensures ExactStore(f, a, steps, next, y) {
      assert ExactStore(f, b, steps, k, y);
      AdvanceExactStore(f, b, steps, k, y);
    }
  }

  lemma {:induction false} RunExact(f: Function, steps: seq<Step>, k: nat)
    requires Executable(f, steps) && k <= |steps|
    ensures Exact(f, RunTo(f, steps, k), steps, k)
  {
    hide Advance;
    if k > 0 {
      RunExact(f, steps, k - 1);
      AdvanceExact(f, RunTo(f, steps, k - 1), steps, k - 1);
      RunNext(f, steps, k - 1);
    }
  }

  /** A value that a block comes to hold is that of a later step, before which the block is not cleared. */
  lemma {:induction false} EventualFrom(f: Function, steps: seq<Step>, k: nat, x: nat, i: nat) returns (m: nat)
    requires Executable(f, steps) && k <= |steps|
    requires i in Eventual(f, steps, k, x) && i !in StoreAt(RunTo(f, steps, k), x)
    ensures k <= m < |steps| && steps[m].index == i && f.blockOf[i] == x && Storable(f, steps[m])
    ensures NoneClears(f, steps, k, m, x)
    decreases |steps| - k
  {
    hide Advance, Run, RunTo;
    assert k < |steps| && !Clears(f, steps, k, x);
    if i in StoreAt(RunTo(f, steps, k + 1), x) {
      m := k;
      NewValue(f, steps, k, x, i);
    } else {
      m := EventualFrom(f, steps, k + 1, x, i);
    }
  }

  /** A value that one step adds to a block is its own. */
  lemma NewValue(f: Function, steps: seq<Step>, k: nat, x: nat, i: nat)
    requires Executable(f, steps) && k < |steps| && i in StoreAt(RunTo(f, steps, k + 1), x)
    requires Clears(f, steps, k, x) || i !in StoreAt(RunTo(f, steps, k), x)
    ensures steps[k].index == i && f.blockOf[i] == x && Storable(f, steps[k])
  {
    hide Advance, Run;
    var r := RunTo(f, steps, k);
    RunNext(f, steps, k);
    AdvanceElsewhere(f, r, steps[k]);
    AdvanceHere(f, r, steps[k]);
    assert JumpsOver(f, r, steps[k], x) == Clears(f, steps, k, x);
  }

  /** What a block that had no store before a jump comes to hold after it is left over when the jump is undone. */
  lemma SomethingSince(f: Function, steps: seq<Step>, j: nat, x: nat, i: nat) returns (m: nat)
    requires Executable(f, steps) && j < |steps| && i in Eventual(f, steps, j + 1, x)
    requires Clears(f, steps, j, x) && x !in RunTo(f, steps, j).stores
    ensures Leaves(f, steps, j, x, m)
  {
    hide Run, RunTo, Eventual;
    if i in StoreAt(RunTo(f, steps, j + 1), x) {
      m := j;
      NewValue(f, steps, j, x, i);
    } else {
      m := EventualFrom(f, steps, j + 1, x, i);
    }
  }

  lemma NothingSince(f: Function, steps: seq<Step>, j: nat, x: nat)
    requires Executable(f, steps) && j < |steps| && LeavesNothing(f, steps)
    requires Clears(f, steps, j, x) && x !in RunTo(f, steps, j).stores
    ensures Eventual(f, steps, j + 1, x) == map[]
  {
    hide Run, RunTo, Eventual, Leaves;
    var e := Eventual(f, steps, j + 1, x);
    if e != map[] {
      var i :| i in e;
      var m := SomethingSince(f, steps, j, x, i);
    }
  }

  lemma RetreatExactStore(f: Function, b: Blocks, steps: seq<Step>, k: nat, y: nat)
    requires Executable(f, steps) && k < |steps| && Tracks(f, b, steps, k + 1) && Exact(f, b, steps, k + 1)
    requires LeavesNothing(f, steps) && CanRetreat(f, b, StepBefore(steps, k))
    ensures ExactStore(f, Retreat(f, b, StepBefore(steps, k)), steps, k, y)
  {
    hide Run, RunTo, Eventual, LeavesNothing, Extends, StoreTracks, JumpsTrack;
    assert ExactStore(f, b, steps, k + 1, y);
    EventualStep(f, steps, k, y);
    if Clears(f, steps, k, y) {
      assert JumpTracks(f, b.jumps[|b.jumps| - 1], steps, k) by { JumpOnTop(f, b, steps, k); }
      if y !in RunTo(f, steps, k).stores {
        NothingSince(f, steps, k, y);
        NothingExtends(b, Eventual(f, steps, k, y), y);
      }
    } else if Jumps(steps, k) {
      JumpOnTop(f, b, steps, k);
    }
  }

  lemma NothingExtends(b: Blocks, s: Store, y: nat)
    ensures y in b.stores && Extends(map[], b.stores[y]) ==> Extends(s, b.stores[y])
  {
  }

  lemma JumpOnTop(f: Function, b: Blocks, steps: seq<Step>, k: nat)
    requires Executable(f, steps) && k < |steps| && Tracks(f, b, steps, k + 1) && Jumps(steps, k)
    ensures b.jumps != [] && JumpTracks(f, b.jumps[|b.jumps| - 1], steps, k)
  {
  }

  lemma RetreatExact(f: Function, b: Blocks, steps: seq<Step>, k: nat)
    requires Executable(f, steps) && k < |steps| && Tracks(f, b, steps, k + 1) && Exact(f, b, steps, k + 1)
    requires LeavesNothing(f, steps) && CanRetreat(f, b, StepBefore(steps, k))
    ensures Exact(f, Retreat(f, b, StepBefore(steps, k)), steps, k)
  {
    hide Run, ExactStore, StoreTracks, LeavesNothing, JumpsTrack, JumpTracks, ExactJump;
    forall y ensures ExactStore(f, Retreat(f, b, StepBefore(steps, k)), steps, k, y) {
      RetreatExactStore(f, b, steps, k, y);
    }
  }

  // ---------------------------------------------------------------- answers of an exact frame

  /** An instruction at or behind the active one runs again only after a jump back over its block. */
  lemma {:induction false} ClearedBefore(f: Function, steps: seq<Step>, k: nat, m: nat)
    requires Executable(f, steps) && 0 < k <= m < |steps|
    requires var a, i := steps[k - 1], steps[m].index; i < a.index || (i == a.index && a.complete)
    ensures !NoneClears(f, steps, k, m, f.blockOf[steps[m].index])
    decreases m - k
  {
    var i := steps[m].index;
    if steps[k].index <= i {
      assert Clears(f, steps, k, f.blockOf[i]);
    } else {
      ClearedBefore(f, steps, k + 1, m);
    }
  }

  /** An exact frame answers what the log says and nothing more. */
  lemma ExactAnswers(f: Function, b: Blocks, steps: seq<Step>, k: nat, index: nat)
    requires Executable(f, steps) && k <= |steps| && index < |f.blockOf|
    requires Tracks(f, b, steps, k) && Exact(f, b, steps, k)
    ensures Answer(f, b, index) == LastValue(f, steps, k, index)
  {
    hide Run, LastValue, Eventual, StoreTracks, JumpsTrack, ExactJumps, Executable;
    if LastValue(f, steps, k, index).Some? {
      WalkedAnswers(f, b, steps, k, index);
    } else if Answer(f, b, index).Some? {
      var x := f.blockOf[index];
      StoredIsLast(f, steps, k, index);
      assert ExactStore(f, b, steps, k, x);
      var m := EventualFrom(f, steps, k, x, index);
      ClearedBefore(f, steps, k, m);
      assert false;
    }
  }

  // ---------------------------------------------------------------- walks over the steps of one frame

  function StepBefore(steps: seq<Step>, k: nat): Option<Step>
    requires k <= |steps|
  {
    if k == 0 then None else Some(steps[k - 1])
  }

  /** The values of a frame after the moves, each of which adds or removes one step. */
  ghost function WalkFrame(f: Function, steps: seq<Step>, b: Blocks, k: nat, moves: seq<Move>): (r: Blocks)
    requires Executable(f, steps) && k <= |steps| && Tracks(f, b, steps, k) && Legal(moves, k, |steps|)
    ensures Tracks(f, r, steps, End(moves, k, |steps|))
    decreases moves
  {
    hide Tracks, Advance, CanRetreat, Retreat, Executable;
    if moves == [] then b
    else if moves[0].Forward? then
      AdvanceTracks(f, b, steps, k);
      TracksActive(f, b, steps, k);
      WalkFrame(f, steps, Advance(f, b, steps[k]), k + 1, moves[1..])
    else
      RetreatTracks(f, b, steps, k - 1);
      WalkFrame(f, steps, Retreat(f, b, StepBefore(steps, k - 1)), k - 1, moves[1..])
  }

  lemma TracksActive(f: Function, b: Blocks, steps: seq<Step>, k: nat)
    requires Executable(f, steps) && k < |steps| && Tracks(f, b, steps, k)
    ensures f.Valid() && steps[k].index < |f.blockOf| && (b.active.Some? ==> b.active.value < |f.blockOf|)
  {
  }

  /** A walk that starts where forward replay has taken `k` steps. */
  ghost function WalkFrom(f: Function, steps: seq<Step>, k: nat, moves: seq<Move>): (r: Blocks)
    requires Executable(f, steps) && k <= |steps| && Legal(moves, k, |steps|)
    ensures Tracks(f, r, steps, End(moves, k, |steps|))
  {
    hide Executable, Tracks;
    RunTracks(f, steps, k);
    WalkFrame(f, steps, RunTo(f, steps, k), k, moves)
  }

  lemma {:induction false} WalkExact(f: Function, steps: seq<Step>, b: Blocks, k: nat, moves: seq<Move>)
    requires Executable(f, steps) && k <= |steps| && Tracks(f, b, steps, k) && Legal(moves, k, |steps|)
    requires Exact(f, b, steps, k) && LeavesNothing(f, steps)
    ensures Exact(f, WalkFrame(f, steps, b, k, moves), steps, End(moves, k, |steps|))
    decreases moves
  {
    hide Tracks, Advance, Retreat, CanRetreat, Executable, Exact, LeavesNothing, Run;
    if moves != [] {
      if moves[0].Forward? {
        AdvanceTracks(f, b, steps, k);
        TracksActive(f, b, steps, k);
        ActiveSame(f, b, steps, k);
        AdvanceExact(f, b, steps, k);
        WalkExact(f, steps, Advance(f, b, steps[k]), k + 1, moves[1..]);
      } else {
        RetreatTracks(f, b, steps, k - 1);
        RetreatExact(f, b, steps, k - 1);
        WalkExact(f, steps, Retreat(f, b, StepBefore(steps, k - 1)), k - 1, moves[1..]);
      }
    }
  }

  lemma ActiveSame(f: Function, b: Blocks, steps: seq<Step>, k: nat)
    requires Executable(f, steps) && k <= |steps| && Tracks(f, b, steps, k)
    ensures b.active == RunTo(f, steps, k).active
  {
  }

  // ---------------------------------------------------------------- a value that shows

  lemma {:induction false} WalkForwards(f: Function, steps: seq<Step>, k: nat, n: nat, tail: seq<Move>)
    requires Executable(f, steps) && k + n <= |steps| && Legal(tail, k + n, |steps|)
    ensures Legal(Times(Forward, n, tail), k, |steps|)
    ensures WalkFrom(f, steps, k, Times(Forward, n, tail)) == WalkFrom(f, steps, k + n, tail)
    decreases n
  {
    hide Tracks, Advance, Retreat, CanRetreat, Executable, Run, RunTo, Times;
    RunTracks(f, steps, k);
    FirstOf(Forward, n, tail);
    if n > 0 {
      WalkForwards(f, steps, k + 1, n - 1, tail);
      RunNext(f, steps, k);
    }
  }

  /** From `n` steps above `j` back to `j`. */
  ghost function WalkBack(f: Function, steps: seq<Step>, b: Blocks, j: nat, n: nat): (r: Blocks)
    requires Executable(f, steps) && j + n <= |steps| && Tracks(f, b, steps, j + n)
    ensures Tracks(f, r, steps, j)
  {
    hide Tracks, Executable, Times, Legal, End;
    BackwardsThen(j, n, [], |steps|);
    WalkFrame(f, steps, b, j + n, Times(Backward, n, []))
  }

  /** Going back as far as before jump `j`, a value of a block that none of the jumps undone has cleared stays,
      as does that of a block which had no store at jump `j`. */
  lemma {:induction false} BackKeepsValue(f: Function, steps: seq<Step>, b: Blocks, j: nat, n: nat, x: nat, i: nat)
    requires Executable(f, steps) && j + n <= |steps| && Tracks(f, b, steps, j + n)
    requires b.jumps == RunTo(f, steps, j + n).jumps && x in b.stores && i in b.stores[x]
    requires Clears(f, steps, j, x) && x !in RunTo(f, steps, j).stores
    requires n == 0 || NoneClears(f, steps, j + 1, j + n - 1, x)
    ensures var r := WalkBack(f, steps, b, j, n); x in r.stores && i in r.stores[x]
    decreases n
  {
    hide Tracks, Executable, Run, RunTo, Times, Retreat, CanRetreat;
    BackwardsThen(j, n, [], |steps|);
    FirstOf(Backward, n, []);
    if n > 0 {
      var k := j + n - 1;
      RetreatTracks(f, b, steps, k);
      BackOnce(f, steps, b, k, x, i);
      BackKeepsValue(f, steps, Retreat(f, b, StepBefore(steps, k)), j, n - 1, x, i);
    }
  }

  lemma BackOnce(f: Function, steps: seq<Step>, b: Blocks, k: nat, x: nat, i: nat)
    requires Executable(f, steps) && k < |steps| && Tracks(f, b, steps, k + 1)
    requires CanRetreat(f, b, StepBefore(steps, k))
    requires b.jumps == RunTo(f, steps, k + 1).jumps && x in b.stores && i in b.stores[x]
    requires Clears(f, steps, k, x) ==> x !in RunTo(f, steps, k).stores
    ensures var r := Retreat(f, b, StepBefore(steps, k));
            r.jumps == RunTo(f, steps, k).jumps && x in r.stores && i in r.stores[x]
  {
    hide StoreTracks, JumpsTrack, Run, Advance;
    var r := RunTo(f, steps, k);
    RunNext(f, steps, k);
    AdvanceElsewhere(f, r, steps[k]);
    if Jumps(steps, k) {
      assert b.jumps[..|b.jumps| - 1] == r.jumps;
    }
  }

  /** Past the value and back to before the jump, the frame answers what the log does not say. */
  lemma LeftoverShows(f: Function, steps: seq<Step>, j: nat, x: nat, m: nat) returns (moves: seq<Move>, i: nat)
    requires Executable(f, steps) && Leaves(f, steps, j, x, m)
    ensures Legal(moves, 0, |steps|) && End(moves, 0, |steps|) == j && i < |f.blockOf|
    ensures Answer(f, WalkFrom(f, steps, 0, moves), i).Some? && LastValue(f, steps, j, i).None?
  {
    hide Run, RunTo, LastValue, StoreTracks, JumpsTrack, Legal, End, Times, Advance;
    var n := m + 1 - j;
    i, moves := steps[m].index, Times(Backward, n, []);
    LeftInStore(f, steps, m);
    RunTracks(f, steps, m + 1);
    BackKeepsValue(f, steps, RunTo(f, steps, m + 1), j, n, x, i);
    NoMoves(j, |steps|);
    BackwardsThen(j, n, [], |steps|);
    ForwardsThen(0, m + 1, moves, |steps|);
    WalkForwards(f, steps, 0, m + 1, moves);
    moves := Times(Forward, m + 1, moves);
    LeftoverIsAnswered(f, steps, WalkFrom(f, steps, 0, moves), j, x, m);
    AnswerIsLast(f, steps, j, i);
  }

  /** A frame that still holds the value answers it, where forward replay answers nothing. */
  lemma LeftoverIsAnswered(f: Function, steps: seq<Step>, b: Blocks, j: nat, x: nat, m: nat)
    requires Executable(f, steps) && Leaves(f, steps, j, x, m) && Tracks(f, b, steps, j)
    requires x in b.stores && steps[m].index in b.stores[x]
    ensures Answer(f, b, steps[m].index).Some? && Answer(f, RunTo(f, steps, j), steps[m].index).None?
  {
    hide Run, RunTo, StoreTracks, JumpsTrack;
    HereIsStored(f, steps, j - 1);
  }

  lemma NoMoves(n: nat, last: nat)
    requires n <= last
    ensures Legal([], n, last) && End([], n, last) == n
  {
  }

  lemma LeftInStore(f: Function, steps: seq<Step>, m: nat)
    requires Executable(f, steps) && m < |steps| && Storable(f, steps[m])
    ensures var r, x := RunTo(f, steps, m + 1), f.blockOf[steps[m].index];
            x in r.stores && steps[m].index in r.stores[x]
  {
    hide Run, Advance;
    RunNext(f, steps, m);
    AdvanceHere(f, RunTo(f, steps, m), steps[m]);
  }

  /** The block of a step has a store after it. */
  lemma HereIsStored(f: Function, steps: seq<Step>, k: nat)
    requires Executable(f, steps) && k < |steps|
    ensures f.blockOf[steps[k].index] in RunTo(f, steps, k + 1).stores
  {
    hide Run, Advance;
    RunNext(f, steps, k);
    AdvanceHere(f, RunTo(f, steps, k), steps[k]);
  }

  /** Every walk answers, at every position, exactly what the log says, if and only if no jump leaves a value. */
  lemma {:induction false} AnswersExactlyIff(f: Function, steps: seq<Step>)
    requires Executable(f, steps)
    ensures (forall moves, i: nat | Legal(moves, 0, |steps|) && i < |f.blockOf| ::
               Answer(f, WalkFrom(f, steps, 0, moves), i) == LastValue(f, steps, End(moves, 0, |steps|), i))
            <==> LeavesNothing(f, steps)
  {
    hide Run, LastValue, Answer, Leaves, Executable, Tracks, Exact, Legal, End;
    if LeavesNothing(f, steps) {
      forall moves, i: nat | Legal(moves, 0, |steps|) && i < |f.blockOf|
        ensures Answer(f, WalkFrom(f, steps, 0, moves), i) == LastValue(f, steps, End(moves, 0, |steps|), i)
      {
        RunTracks(f, steps, 0);
        RunExact(f, steps, 0);
        WalkExact(f, steps, RunTo(f, steps, 0), 0, moves);
        ExactAnswers(f, WalkFrom(f, steps, 0, moves), steps, End(moves, 0, |steps|), i);
      }
    } else {
      var j: nat, x: nat, m: nat :| Leaves(f, steps, j, x, m);
      var moves, i := LeftoverShows(f, steps, j, x, m);
      assert Answer(f, WalkFrom(f, steps, 0, moves), i) != LastValue(f, steps, End(moves, 0, |steps|), i);
    }
  }

  /** The walk that skips a block and comes back to it leaves a value, which is the one that it then answers. */
  lemma SkippingLeaves()
    ensures Executable(SKIPPING, SKIPPING_STEPS) && Leaves(SKIPPING, SKIPPING_STEPS, 3, 2, 4)
  {
    hide Run, RunTo;
    SkippingBefore();
  }
}
