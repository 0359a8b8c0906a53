/** Moving several replayed threads: one worker per thread, whose steps interleave freely and are ordered by
    the time of the process, in both directions and with the source's own waits. */
module Movement {
  import opened Common

  /** `View` only brings a thread's own time up to date; `Shared` changes the state of the process. */
  datatype Event = Local | View(time: int) | Shared(time: int)
  {
    predicate Timed() { !Local? }
  }

  /** The log of a thread. `bounds[p]` holds where a block starts, and at both ends of the log. */
  datatype Track = Track(events: seq<Event>, bounds: seq<bool>)
  {
    ghost predicate Valid() {
      |bounds| == |events| + 1 && bounds[0] && bounds[|events|]
    }

    /** No block starts after `p`, up to and including `q`. */
    ghost predicate SameBlock(p: nat, q: nat)
      requires Valid()
    {
      forall k | p < k <= q && k <= |events| :: !bounds[k]
    }
  }

  /** The logs of a process whose times run from 1 to `last`. */
  datatype System = System(tracks: seq<Track>, last: nat)

  datatype Direction = Forward | Backward

  /** Where a worker is in its loop. */
  datatype Phase = Idle | Moving | Rewinding | Ended | AskProcess | AskThread | Leaving | Done

  /** `entry` is the position to go back to if the movement completes during a block. */
  datatype Worker = Worker(pos: nat, phase: Phase, entry: nat)

  datatype State = State(workers: seq<Worker>, lock: Option<nat>, time: int, complete: bool)

  datatype Action =
    | Begin(w: nat)
    | Finish(w: nat)
    | Acquire(w: nat)
    | Move(w: nat)
    | Undo(w: nat)
    | Check(w: nat)
    | Ask(w: nat, satisfied: bool)
    | Leave(w: nat)

  // ---------------------------------------------------------------- logs that the recorder writes

  ghost predicate Times(sys: System) {
    && (forall w, p | 0 <= w < |sys.tracks| && 0 <= p < |sys.tracks[w].events| && sys.tracks[w].events[p].Timed() ::
          1 <= sys.tracks[w].events[p].time <= sys.last)
    && (forall t | 1 <= t <= sys.last :: HasOwner(sys, t))
  }

  ghost predicate IsShared(sys: System, w: nat, p: nat, t: int) {
    w < |sys.tracks| && p < |sys.tracks[w].events| && sys.tracks[w].events[p] == Shared(t)
  }

  ghost predicate HasOwner(sys: System, t: int) {
    exists w: nat, p: nat :: IsShared(sys, w, p, t)
  }

  /** The changes that share a time belong to one block of one thread. */
  ghost predicate OneOwner(sys: System)
    requires forall w | 0 <= w < |sys.tracks| :: sys.tracks[w].Valid()
  {
    forall w: nat, p: nat, v: nat, q: nat, t: int | IsShared(sys, w, p, t) && IsShared(sys, v, q, t) ::
      w == v && (p < q ==> sys.tracks[w].SameBlock(p, q))
  }

  /** Times increase along a log, except that changes may share one. */
  ghost predicate Increasing(track: Track) {
    forall p, q | 0 <= p < q < |track.events| && track.events[p].Timed() && track.events[q].Timed() ::
      && track.events[p].time <= track.events[q].time
      && (track.events[p].time == track.events[q].time ==> track.events[p].Shared? && track.events[q].Shared?)
  }

  /** Within a block successive times are consecutive, and a view is the first or the last of them. */
  ghost predicate Consecutive(track: Track)
    requires track.Valid()
  {
    && (forall p, q | 0 <= p < q < |track.events| && track.events[p].Timed() && track.events[q].Timed() &&
          track.SameBlock(p, q) && NoneTimed(track, p + 1, q) :: track.events[q].time <= track.events[p].time + 1)
    && (forall p, q, r | 0 <= p < q < r < |track.events| && track.events[p].Timed() && track.events[q].View? &&
          track.events[r].Timed() :: !track.SameBlock(p, r))
  }

  ghost predicate NoneTimed(track: Track, low: nat, high: nat) {
    forall k | low <= k < high && k < |track.events| :: !track.events[k].Timed()
  }

  ghost predicate WellFormed(sys: System) {
    && (forall w | 0 <= w < |sys.tracks| :: sys.tracks[w].Valid())
    && Times(sys)
    && OneOwner(sys)
    && (forall w | 0 <= w < |sys.tracks| :: Increasing(sys.tracks[w]) && Consecutive(sys.tracks[w]))
  }

  // ---------------------------------------------------------------- steps

  ghost predicate InRange(sys: System, s: State) {
    && |s.workers| == |sys.tracks|
    && (forall w | 0 <= w < |s.workers| ::
          s.workers[w].pos <= |sys.tracks[w].events| && s.workers[w].entry <= |sys.tracks[w].events|)
    && (forall w | 0 <= w < |s.workers| :: sys.tracks[w].Valid())
  }

  predicate AtEnd(dir: Direction, track: Track, pos: nat) {
    if dir.Forward? then pos >= |track.events| else pos == 0
  }

  /** The event that comes next in the direction of the movement. */
  function Upcoming(dir: Direction, track: Track, pos: nat): Event
    requires pos <= |track.events| && !AtEnd(dir, track, pos)
  {
    if dir.Forward? then track.events[pos] else track.events[pos - 1]
  }

  function Onward(dir: Direction, pos: nat): nat
    requires dir.Backward? ==> pos > 0
  {
    if dir.Forward? then pos + 1 else pos - 1
  }

  /** The condition that a worker waits for. */
  predicate Ready(dir: Direction, e: Event, time: int)
    requires e.Timed()
  {
    if dir.Forward? then time >= (if e.Shared? then e.time - 1 else e.time)
    else time <= (if e.Shared? then e.time else e.time - 1)
  }

  /** The time of the process once `e` has been added, or removed. */
  function TimeAfter(dir: Direction, e: Event, time: int): int {
    if !e.Shared? then time else if dir.Forward? then e.time else e.time - 1
  }

  function Opposite(dir: Direction): Direction {
    if dir.Forward? then Backward else Forward
  }

  ghost predicate Enabled(dir: Direction, sys: System, s: State, a: Action)
    requires InRange(sys, s)
  {
    && a.w < |s.workers|
    && var worker, track := s.workers[a.w], sys.tracks[a.w];
       match a
       case Begin(_) => worker.phase.Idle? && !AtEnd(dir, track, worker.pos)
       case Finish(_) => worker.phase.Idle? && AtEnd(dir, track, worker.pos)
       case Acquire(w) =>
         && worker.phase.Moving? && s.lock.None? && !AtEnd(dir, track, worker.pos)
         && Upcoming(dir, track, worker.pos).Timed()
         && (s.complete || Ready(dir, Upcoming(dir, track, worker.pos), s.time))
       case Move(w) =>
         && worker.phase.Moving? && !AtEnd(dir, track, worker.pos)
         && (s.lock == Some(w) || !Upcoming(dir, track, worker.pos).Timed())
       case Undo(_) =>
         && worker.phase.Rewinding?
         && (worker.pos != worker.entry ==> !AtEnd(Opposite(dir), track, worker.pos))
       case Check(_) => worker.phase.Ended?
       case Ask(_, _) => worker.phase.AskProcess? || worker.phase.AskThread?
       case Leave(_) => worker.phase.Leaving?
  }

  function Released(s: State, w: nat): Option<nat> {
    if s.lock == Some(w) then None else s.lock
  }

  function With(s: State, w: nat, worker: Worker): State
    requires w < |s.workers|
  {
    s.(workers := s.workers[w := worker])
  }

  ghost function Step(dir: Direction, sys: System, s: State, a: Action): (r: State)
    requires InRange(sys, s) && Enabled(dir, sys, s, a)
    ensures InRange(sys, r)
  {
    var w := a.w;
    var worker, track := s.workers[w], sys.tracks[w];
    match a
    case Begin(_) => With(s, w, Worker(worker.pos, Moving, worker.pos))
    case Finish(_) => With(s, w, worker.(phase := Done))
    // With the movement complete the lock is given up again, since only local changes are to be undone.
    case Acquire(_) =>
      if s.complete then With(s, w, worker.(phase := Rewinding)) else s.(lock := Some(w))
    case Move(_) =>
      var pos := Onward(dir, worker.pos);
      With(s, w, worker.(pos := pos, phase := if track.bounds[pos] then Ended else Moving))
      .(time := TimeAfter(dir, Upcoming(dir, track, worker.pos), s.time))
    // Nothing resets the completion of a movement, so a cancelled worker leaves its loop.
    case Undo(_) =>
      if worker.pos == worker.entry then With(s, w, worker.(phase := Leaving))
      else
        With(s, w, worker.(pos := Onward(Opposite(dir), worker.pos)))
        .(time := TimeAfter(Opposite(dir), Upcoming(Opposite(dir), track, worker.pos), s.time))
    case Check(_) =>
      With(s, w, worker.(phase := if s.complete then Leaving
                                  else if s.lock == Some(w) then AskProcess else AskThread))
    case Ask(_, satisfied) =>
      if satisfied then With(s, w, worker.(phase := Leaving)).(complete := true)
      else if worker.phase.AskProcess? then With(s, w, worker.(phase := AskThread))
      else With(s, w, worker.(phase := Idle)).(lock := Released(s, w))
    case Leave(_) => With(s, w, worker.(phase := Done)).(lock := Released(s, w))
  }

  // ---------------------------------------------------------------- the invariant, going forward

  /** The block that a worker is in, and what it may have done of it. */
  ghost predicate Placed(sys: System, s: State, w: nat)
    requires InRange(sys, s) && w < |s.workers|
  {
    var worker, track := s.workers[w], sys.tracks[w];
    if worker.phase.Moving? || worker.phase.Rewinding? then
      && worker.entry <= worker.pos && worker.entry < |track.events|
      && track.bounds[worker.entry] && track.SameBlock(worker.entry, worker.pos)
      && (s.lock != Some(w) ==> NoneTimed(track, worker.entry, worker.pos))
      && (worker.phase.Rewinding? ==> s.complete && s.lock != Some(w))
    else
      && track.bounds[worker.pos]
      && (worker.phase.Idle? || worker.phase.Done? ==> s.lock != Some(w))
      && (worker.phase.AskProcess? ==> s.lock == Some(w))
      && (worker.phase.Leaving? ==> s.complete)
      && (worker.phase.Done? && !s.complete ==> worker.pos == |track.events|)
  }

  /** An event is applied exactly when its time has come; the worker that holds the lock may still have
      to apply, in the rest of its block, changes of the current time. */
  ghost predicate Timely(sys: System, s: State, w: nat, p: nat)
    requires InRange(sys, s) && w < |s.workers| && p < |sys.tracks[w].events|
  {
    var worker, e := s.workers[w], sys.tracks[w].events[p];
    e.Shared? ==>
      if p < worker.pos then e.time <= s.time
      else e.time > s.time ||
           (e.time == s.time && s.lock == Some(w) && worker.phase.Moving? && sys.tracks[w].SameBlock(worker.pos, p))
  }

  /** The next change of the block, if the lock is held, needs no further wait. */
  ghost predicate NoGap(sys: System, s: State, w: nat, p: nat)
    requires InRange(sys, s) && w < |s.workers| && p < |sys.tracks[w].events|
  {
    var worker, track := s.workers[w], sys.tracks[w];
    s.lock == Some(w) && worker.phase.Moving? && worker.pos <= p && track.events[p].Shared? &&
    track.SameBlock(worker.pos, p) && (forall k | worker.pos <= k < p :: !track.events[k].Shared?)
    ==> track.events[p].time <= s.time + 1
  }

  ghost predicate Inv(sys: System, s: State) {
    && WellFormed(sys) && InRange(sys, s)
    && 0 <= s.time <= sys.last
    && (s.lock.Some? ==> s.lock.value < |s.workers|)
    && (forall w | 0 <= w < |s.workers| :: Placed(sys, s, w))
    && (forall w, p | 0 <= w < |s.workers| && 0 <= p < |sys.tracks[w].events| :: Timely(sys, s, w, p))
    && (forall w, p | 0 <= w < |s.workers| && 0 <= p < |sys.tracks[w].events| :: NoGap(sys, s, w, p))
  }

  lemma PlacedElsewhere(sys: System, s: State, r: State, w: nat, v: nat)
    requires InRange(sys, s) && InRange(sys, r) && w < |s.workers| && v < |s.workers| && v != w
    requires r.workers[v] == s.workers[v] && (s.complete ==> r.complete)
    requires r.lock == Some(v) <==> s.lock == Some(v)
    requires Placed(sys, s, v)
    ensures Placed(sys, r, v)
  {
  }

  /** Steps that move no worker and leave alone who is applying changes. */
  lemma PhaseKeeps(sys: System, s: State, r: State, w: nat)
    requires Inv(sys, s) && InRange(sys, r) && w < |s.workers|
    requires r.workers == s.workers[w := r.workers[w]] && r.workers[w].pos == s.workers[w].pos && r.time == s.time
    requires forall v | 0 <= v < |s.workers| && v != w :: r.lock == Some(v) <==> s.lock == Some(v)
    requires r.lock.Some? ==> r.lock.value < |s.workers|
    requires s.lock == Some(w) && s.workers[w].phase.Moving? <==> r.lock == Some(w) && r.workers[w].phase.Moving?
    requires (s.complete ==> r.complete) && Placed(sys, r, w)
    ensures Inv(sys, r)
  {
    hide Placed, WellFormed;
    forall v | 0 <= v < |r.workers| ensures Placed(sys, r, v) {
      if v != w {
        PlacedElsewhere(sys, s, r, w, v);
      }
    }
    forall v, p | 0 <= v < |r.workers| && 0 <= p < |sys.tracks[v].events|
      ensures Timely(sys, r, v, p) && NoGap(sys, r, v, p)
    {
      assert Timely(sys, s, v, p) && NoGap(sys, s, v, p);
    }
  }

  lemma SameBlockHere(track: Track, p: nat)
    requires track.Valid()
    ensures track.SameBlock(p, p)
  {
  }

  lemma OtherKeeps(sys: System, s: State, a: Action)
    requires Inv(sys, s) && Enabled(Forward, sys, s, a) && !a.Move? && !a.Acquire? && !a.Undo?
    ensures Inv(sys, Step(Forward, sys, s, a))
  {
    hide WellFormed, Timely, NoGap;
    assert Placed(sys, s, a.w);
    PhaseKeeps(sys, s, Step(Forward, sys, s, a), a.w);
  }

  /** Undoing takes back local events only. */
  lemma UndoIsLocal(sys: System, s: State, a: Action)
    requires Inv(sys, s) && Enabled(Forward, sys, s, a) && a.Undo? && s.workers[a.w].pos != s.workers[a.w].entry
    ensures Upcoming(Backward, sys.tracks[a.w], s.workers[a.w].pos) == Local
    ensures Step(Forward, sys, s, a).time == s.time
  {
    hide WellFormed, Timely, NoGap;
    assert Placed(sys, s, a.w);
  }

  lemma UndoKeeps(sys: System, s: State, a: Action)
    requires Inv(sys, s) && Enabled(Forward, sys, s, a) && a.Undo?
    ensures Inv(sys, Step(Forward, sys, s, a))
  {
    hide WellFormed, Timely, NoGap;
    var r, w := Step(Forward, sys, s, a), a.w;
    assert Placed(sys, s, w);
    if s.workers[w].pos == s.workers[w].entry {
      PhaseKeeps(sys, s, r, w);
    } else {
      UndoIsLocal(sys, s, a);
      UndoneKeeps(sys, s, r, w);
    }
  }

  lemma UndoneKeeps(sys: System, s: State, r: State, w: nat)
    requires Inv(sys, s) && InRange(sys, r) && w < |s.workers| && s.workers[w].phase.Rewinding?
    requires s.workers[w].entry < s.workers[w].pos
    requires r == With(s, w, s.workers[w].(pos := s.workers[w].pos - 1))
    ensures Inv(sys, r)
  {
    hide WellFormed;
    assert Placed(sys, s, w);
    forall v | 0 <= v < |r.workers| ensures Placed(sys, r, v) {
      if v != w {
        PlacedElsewhere(sys, s, r, w, v);
      }
    }
    forall v, p | 0 <= v < |r.workers| && 0 <= p < |sys.tracks[v].events|
      ensures Timely(sys, r, v, p) && NoGap(sys, r, v, p)
    {
      assert Timely(sys, s, v, p) && NoGap(sys, s, v, p);
    }
  }

  /** After the wait, the next change of the block is due. */
  lemma AcquiredNoGap(sys: System, s: State, w: nat, p: nat)
    requires WellFormed(sys) && InRange(sys, s) && w < |s.workers|
    requires var pos, track := s.workers[w].pos, sys.tracks[w];
             && pos <= p < |track.events| && track.events[pos].Timed() && Ready(Forward, track.events[pos], s.time)
             && track.events[p].Shared? && track.SameBlock(pos, p)
             && (forall k | pos <= k < p :: !track.events[k].Shared?)
    ensures sys.tracks[w].events[p].time <= s.time + 1
  {
    hide Times, OneOwner, Increasing;
    var pos, track := s.workers[w].pos, sys.tracks[w];
    assert Consecutive(track);
    if pos < p {
      assert track.events[pos].View?;
      forall k | pos + 1 <= k < p ensures !track.events[k].Timed() {
        assert !track.events[k].Shared?;
      }
      assert NoneTimed(track, pos + 1, p);
    }
  }

  lemma AcquireKeeps(sys: System, s: State, a: Action)
    requires Inv(sys, s) && Enabled(Forward, sys, s, a) && a.Acquire?
    ensures Inv(sys, Step(Forward, sys, s, a))
  {
    hide WellFormed;
    var r, w := Step(Forward, sys, s, a), a.w;
    assert Placed(sys, s, w);
    if s.complete {
      PhaseKeeps(sys, s, r, w);
    } else {
      forall v | 0 <= v < |r.workers| ensures Placed(sys, r, v) {
        if v != w {
          PlacedElsewhere(sys, s, r, w, v);
        }
      }
      forall v, p | 0 <= v < |r.workers| && 0 <= p < |sys.tracks[v].events|
        ensures Timely(sys, r, v, p) && NoGap(sys, r, v, p)
      {
        assert Timely(sys, s, v, p);
        AcquiredAt(sys, s, r, w, v, p);
      }
    }
  }

  lemma AcquiredAt(sys: System, s: State, r: State, w: nat, v: nat, p: nat)
    requires WellFormed(sys) && InRange(sys, s) && w < |s.workers| && v < |s.workers| && p < |sys.tracks[v].events|
    requires s.workers[w].pos < |sys.tracks[w].events| && s.lock.None? && r == s.(lock := Some(w))
    requires var e := sys.tracks[w].events[s.workers[w].pos]; e.Timed() && Ready(Forward, e, s.time)
    ensures NoGap(sys, r, v, p)
  {
    hide WellFormed;
    var pos, track := s.workers[w].pos, sys.tracks[w];
    if v == w && pos <= p && track.events[p].Shared? && track.SameBlock(pos, p) &&
       forall k | pos <= k < p :: !track.events[k].Shared? {
      AcquiredNoGap(sys, s, w, p);
    }
  }

  lemma DueNow(sys: System, s: State, w: nat)
    requires Inv(sys, s) && w < |s.workers| && s.workers[w].phase.Moving? && s.lock == Some(w)
    requires s.workers[w].pos < |sys.tracks[w].events| && sys.tracks[w].events[s.workers[w].pos].Shared?
    ensures s.time <= sys.tracks[w].events[s.workers[w].pos].time <= s.time + 1
    ensures 1 <= sys.tracks[w].events[s.workers[w].pos].time <= sys.last
  {
    hide Placed, OneOwner, Increasing, Consecutive;
    var pos := s.workers[w].pos;
    assert Timely(sys, s, w, pos) && NoGap(sys, s, w, pos);
    SameBlockHere(sys.tracks[w], pos);
    assert sys.tracks[w].events[pos].Timed();
  }

  /** The other changes once the change of time `t` at position `pos` has been applied. */
  lemma MovedTimely(sys: System, s: State, r: State, w: nat, v: nat, p: nat)
    requires Inv(sys, s) && InRange(sys, r) && w < |s.workers| && s.workers[w].phase.Moving? && s.lock == Some(w)
    requires s.workers[w].pos < |sys.tracks[w].events| && sys.tracks[w].events[s.workers[w].pos].Shared?
    requires v < |s.workers| && p < |sys.tracks[v].events| && (v != w || p != s.workers[w].pos)
    requires r.lock == s.lock && r.time == sys.tracks[w].events[s.workers[w].pos].time
    requires var pos := s.workers[w].pos;
             r.workers == s.workers[w := r.workers[w]] && r.workers[w].pos == pos + 1
             && r.workers[w].phase == if sys.tracks[w].bounds[pos + 1] then Ended else Moving
    ensures Timely(sys, r, v, p)
  {
    hide Placed, NoGap, Times, Consecutive;
    var pos, e := s.workers[w].pos, sys.tracks[v].events[p];
    assert Timely(sys, s, v, p) && Timely(sys, s, w, pos);
    DueNow(sys, s, w);
    if e.Shared? {
      if e.time == r.time {
        assert IsShared(sys, w, pos, r.time) && IsShared(sys, v, p, r.time);
      }
      assert Increasing(sys.tracks[w]);
    }
  }

  lemma MovedNoGap(sys: System, s: State, r: State, w: nat, p: nat)
    requires Inv(sys, s) && InRange(sys, r) && w < |s.workers| && s.workers[w].phase.Moving? && s.lock == Some(w)
    requires s.workers[w].pos < |sys.tracks[w].events| && sys.tracks[w].events[s.workers[w].pos].Shared?
    requires p < |sys.tracks[w].events| && r.lock == s.lock
    requires r.time == sys.tracks[w].events[s.workers[w].pos].time && w < |r.workers|
    requires r.workers[w].pos == s.workers[w].pos + 1 && !sys.tracks[w].bounds[s.workers[w].pos + 1]
    ensures NoGap(sys, r, w, p)
  {
    hide Placed, Timely, Times, OneOwner, Increasing;
    var pos, track := s.workers[w].pos, sys.tracks[w];
    if pos < p && track.events[p].Shared? && track.SameBlock(pos + 1, p) &&
       forall k | pos + 1 <= k < p :: !track.events[k].Shared? {
      assert Consecutive(track);
      assert track.SameBlock(pos, p);
      forall k | pos + 1 <= k < p ensures !track.events[k].Timed() {
        assert !track.events[k].Shared?;
      }
      assert NoneTimed(track, pos + 1, p);
    }
  }

  lemma MovedPlaced(sys: System, s: State, w: nat)
    requires Inv(sys, s) && Enabled(Forward, sys, s, Move(w))
    ensures Placed(sys, Step(Forward, sys, s, Move(w)), w)
  {
    hide Timely, NoGap, WellFormed;
    assert Placed(sys, s, w);
  }

  lemma MoveChange(sys: System, s: State, w: nat)
    requires Inv(sys, s) && Enabled(Forward, sys, s, Move(w))
    requires sys.tracks[w].events[s.workers[w].pos].Shared?
    ensures Inv(sys, Step(Forward, sys, s, Move(w)))
  {
    hide Timely, NoGap, Placed, WellFormed;
    var r, pos := Step(Forward, sys, s, Move(w)), s.workers[w].pos;
    DueNow(sys, s, w);
    forall v | 0 <= v < |r.workers| ensures Placed(sys, r, v) {
      if v != w {
        PlacedElsewhere(sys, s, r, w, v);
      } else {
        MovedPlaced(sys, s, w);
      }
    }
    forall v, p | 0 <= v < |r.workers| && 0 <= p < |sys.tracks[v].events| ensures Timely(sys, r, v, p) {
      if v != w || p != pos {
        MovedTimely(sys, s, r, w, v, p);
      } else {
        AppliedTimely(sys, r, w, p);
      }
    }
    forall v, p | 0 <= v < |r.workers| && 0 <= p < |sys.tracks[v].events| ensures NoGap(sys, r, v, p) {
      if v == w && !sys.tracks[w].bounds[pos + 1] {
        MovedNoGap(sys, s, r, w, p);
      } else {
        OtherNoGap(sys, r, v, p);
      }
    }
  }

  lemma AppliedTimely(sys: System, r: State, w: nat, p: nat)
    requires InRange(sys, r) && w < |r.workers| && p < |sys.tracks[w].events| && p < r.workers[w].pos
    requires sys.tracks[w].events[p].Shared? ==> sys.tracks[w].events[p].time == r.time
    ensures Timely(sys, r, w, p)
  {
  }

  lemma OtherNoGap(sys: System, r: State, v: nat, p: nat)
    requires InRange(sys, r) && v < |r.workers| && p < |sys.tracks[v].events|
    requires r.lock != Some(v) || !r.workers[v].phase.Moving?
    ensures NoGap(sys, r, v, p)
  {
  }

  lemma MoveLocal(sys: System, s: State, w: nat)
    requires Inv(sys, s) && Enabled(Forward, sys, s, Move(w))
    requires !sys.tracks[w].events[s.workers[w].pos].Shared?
    ensures Inv(sys, Step(Forward, sys, s, Move(w)))
  {
    hide Placed, WellFormed;
    var r, pos := Step(Forward, sys, s, Move(w)), s.workers[w].pos;
    forall v | 0 <= v < |r.workers| ensures Placed(sys, r, v) {
      if v != w {
        PlacedElsewhere(sys, s, r, w, v);
      } else {
        MovedPlaced(sys, s, w);
      }
    }
    forall v, p | 0 <= v < |r.workers| && 0 <= p < |sys.tracks[v].events|
      ensures Timely(sys, r, v, p) && NoGap(sys, r, v, p)
    {
      assert Timely(sys, s, v, p) && NoGap(sys, s, v, p);
      LocalMoved(sys, s, r, w, v, p);
    }
  }

  lemma LocalMoved(sys: System, s: State, r: State, w: nat, v: nat, p: nat)
    requires InRange(sys, s) && InRange(sys, r) && w < |s.workers| && v < |s.workers| && p < |sys.tracks[v].events|
    requires s.workers[w].pos < |sys.tracks[w].events| && !sys.tracks[w].events[s.workers[w].pos].Shared?
    requires r.lock == s.lock && r.time == s.time && r.workers == s.workers[w := r.workers[w]]
    requires r.workers[w].pos == s.workers[w].pos + 1 && s.workers[w].phase.Moving?
    requires r.workers[w].phase == if sys.tracks[w].bounds[s.workers[w].pos + 1] then Ended else Moving
    requires Timely(sys, s, v, p) && NoGap(sys, s, v, p)
    ensures Timely(sys, r, v, p) && NoGap(sys, r, v, p)
  {
  }

  /** Every step keeps the invariant. */
  lemma StepKeeps(sys: System, s: State, a: Action)
    requires Inv(sys, s) && Enabled(Forward, sys, s, a)
    ensures Inv(sys, Step(Forward, sys, s, a))
  {
    hide Step, WellFormed, Placed, Timely, NoGap;
    match a {
      case Acquire(_) => AcquireKeeps(sys, s, a);
      case Undo(_) => UndoKeeps(sys, s, a);
      case Move(w) =>
        if sys.tracks[w].events[s.workers[w].pos].Shared? {
          MoveChange(sys, s, w);
        } else {
          MoveLocal(sys, s, w);
        }
      case _ => OtherKeeps(sys, s, a);
    }
  }
}
