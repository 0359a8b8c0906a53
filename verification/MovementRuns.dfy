/** What holds of every run of a movement, in both directions: safety, progress, termination, and outcome. */
module MovementRuns {
  import opened Common
  import opened Movement

  // ---------------------------------------------------------------- backward as forward, mirrored

  function MirrorEvent(e: Event, last: nat): Event {
    match e
    case Local => Local
    case View(t) => View(last + 1 - t)
    case Shared(t) => Shared(last + 1 - t)
  }

  ghost function MirrorTrack(track: Track, last: nat): (r: Track)
    requires track.Valid()
    ensures r.Valid() && |r.events| == |track.events|
    ensures forall p | 0 <= p < |track.events| :: r.events[p] == MirrorEvent(track.events[|track.events| - 1 - p], last)
    ensures forall p | 0 <= p <= |track.events| :: r.bounds[p] == track.bounds[|track.events| - p]
  {
    var n := |track.events|;
    Track(seq(n, p requires 0 <= p < n => MirrorEvent(track.events[n - 1 - p], last)),
          seq(n + 1, p requires 0 <= p < n + 1 => track.bounds[n - p]))
  }

  ghost predicate ValidTracks(sys: System) {
    forall w | 0 <= w < |sys.tracks| :: sys.tracks[w].Valid()
  }

  ghost function Mirror(sys: System): (r: System)
    requires ValidTracks(sys)
    ensures ValidTracks(r) && |r.tracks| == |sys.tracks| && r.last == sys.last
    ensures forall w | 0 <= w < |sys.tracks| :: r.tracks[w] == MirrorTrack(sys.tracks[w], sys.last)
  {
    System(seq(|sys.tracks|, w requires 0 <= w < |sys.tracks| => MirrorTrack(sys.tracks[w], sys.last)), sys.last)
  }

  ghost function MirrorWorker(track: Track, worker: Worker): Worker
    requires worker.pos <= |track.events| && worker.entry <= |track.events|
  {
    worker.(pos := |track.events| - worker.pos, entry := |track.events| - worker.entry)
  }

  ghost function MirrorState(sys: System, s: State): (r: State)
    requires InRange(sys, s)
    ensures InRange(Mirror(sys), r) && |r.workers| == |s.workers|
    ensures forall w | 0 <= w < |s.workers| :: r.workers[w] == MirrorWorker(sys.tracks[w], s.workers[w])
    ensures r.lock == s.lock && r.time == sys.last - s.time && r.complete == s.complete
  {
    State(seq(|s.workers|, w requires 0 <= w < |s.workers| => MirrorWorker(sys.tracks[w], s.workers[w])),
          s.lock, sys.last - s.time, s.complete)
  }

  lemma MirrorUpcoming(track: Track, last: nat, pos: nat, dir: Direction)
    requires track.Valid() && pos <= |track.events|
    ensures AtEnd(dir, track, pos) <==> AtEnd(Opposite(dir), MirrorTrack(track, last), |track.events| - pos)
    ensures !AtEnd(dir, track, pos) ==>
              Upcoming(Opposite(dir), MirrorTrack(track, last), |track.events| - pos) ==
              MirrorEvent(Upcoming(dir, track, pos), last)
  {
  }

  /** A step backward is enabled exactly when the mirrored step forward is. */
  lemma MirrorEnabled(sys: System, s: State, a: Action)
    requires InRange(sys, s)
    ensures Enabled(Backward, sys, s, a) <==> Enabled(Forward, Mirror(sys), MirrorState(sys, s), a)
  {
    if a.w < |s.workers| {
      MirrorUpcoming(sys.tracks[a.w], sys.last, s.workers[a.w].pos, Backward);
      MirrorUpcoming(sys.tracks[a.w], sys.last, s.workers[a.w].pos, Forward);
    }
  }

  /** The mirrored step, as far as it is about the worker that takes it. */
  ghost predicate StepMirrored(sys: System, s: State, a: Action)
    requires InRange(sys, s) && Enabled(Backward, sys, s, a) && Enabled(Forward, Mirror(sys), MirrorState(sys, s), a)
  {
    var r, m := Step(Backward, sys, s, a), Step(Forward, Mirror(sys), MirrorState(sys, s), a);
    && m.lock == r.lock && m.time == sys.last - r.time && m.complete == r.complete
    && |m.workers| == |r.workers|
    && m.workers[a.w] == MirrorWorker(sys.tracks[a.w], r.workers[a.w])
  }

  lemma MirrorStepMoves(sys: System, s: State, a: Action)
    requires InRange(sys, s) && Enabled(Backward, sys, s, a) && (a.Move? || a.Undo?)
    requires Enabled(Forward, Mirror(sys), MirrorState(sys, s), a)
    ensures StepMirrored(sys, s, a)
  {
    hide MirrorTrack;
    MirrorUpcoming(sys.tracks[a.w], sys.last, s.workers[a.w].pos, Backward);
    MirrorUpcoming(sys.tracks[a.w], sys.last, s.workers[a.w].pos, Forward);
  }

  lemma MirrorStepStays(sys: System, s: State, a: Action)
    requires InRange(sys, s) && Enabled(Backward, sys, s, a) && !a.Move? && !a.Undo?
    requires Enabled(Forward, Mirror(sys), MirrorState(sys, s), a)
    ensures StepMirrored(sys, s, a)
  {
    hide MirrorTrack, Upcoming, AtEnd;
  }

  lemma MirrorStepTime(sys: System, s: State, a: Action)
    requires InRange(sys, s) && Enabled(Backward, sys, s, a)
    ensures Enabled(Forward, Mirror(sys), MirrorState(sys, s), a)
    ensures StepMirrored(sys, s, a)
  {
    hide Step, StepMirrored, Enabled;
    MirrorEnabled(sys, s, a);
    if a.Move? || a.Undo? {
      MirrorStepMoves(sys, s, a);
    } else {
      MirrorStepStays(sys, s, a);
    }
  }

  lemma StepElsewhere(dir: Direction, sys: System, s: State, a: Action, v: nat)
    requires InRange(sys, s) && Enabled(dir, sys, s, a) && v < |s.workers| && v != a.w
    ensures Step(dir, sys, s, a).workers[v] == s.workers[v]
  {
  }

  /** And it leads to the mirrored state. */
  lemma MirrorStep(sys: System, s: State, a: Action)
    requires InRange(sys, s) && Enabled(Backward, sys, s, a)
    ensures Enabled(Forward, Mirror(sys), MirrorState(sys, s), a)
    ensures MirrorState(sys, Step(Backward, sys, s, a)) == Step(Forward, Mirror(sys), MirrorState(sys, s), a)
  {
    hide Step, Enabled;
    MirrorStepTime(sys, s, a);
    var r, m := Step(Backward, sys, s, a), Step(Forward, Mirror(sys), MirrorState(sys, s), a);
    forall v | 0 <= v < |s.workers| ensures m.workers[v] == MirrorState(sys, r).workers[v] {
      if v != a.w {
        StepElsewhere(Backward, sys, s, a, v);
        StepElsewhere(Forward, Mirror(sys), MirrorState(sys, s), a, v);
      }
    }
    assert MirrorState(sys, r).workers == m.workers;
  }

  lemma MirrorSameBlock(track: Track, last: nat, p: nat, q: nat)
    requires track.Valid() && p <= q < |track.events|
    ensures var n := |track.events|; MirrorTrack(track, last).SameBlock(n - 1 - q, n - 1 - p) ==> track.SameBlock(p, q)
  {
    var n, m := |track.events|, MirrorTrack(track, last);
    if m.SameBlock(n - 1 - q, n - 1 - p) {
      forall k | p < k <= q ensures !track.bounds[k] {
        assert !m.bounds[n - k];
      }
    }
  }

  lemma MirrorSameBlockBack(track: Track, last: nat, p: nat, q: nat)
    requires track.Valid() && p <= q < |track.events|
    ensures var n := |track.events|; track.SameBlock(p, q) ==> MirrorTrack(track, last).SameBlock(n - 1 - q, n - 1 - p)
  {
    var n, m := |track.events|, MirrorTrack(track, last);
    if track.SameBlock(p, q) {
      forall k | n - 1 - q < k <= n - 1 - p ensures !m.bounds[k] {
        assert !track.bounds[n - k];
      }
    }
  }

  lemma MirrorIncreasing(track: Track, last: nat)
    requires track.Valid() && Increasing(track)
    ensures Increasing(MirrorTrack(track, last))
  {
    var n, m := |track.events|, MirrorTrack(track, last);
    forall p, q | 0 <= p < q < n && m.events[p].Timed() && m.events[q].Timed()
      ensures m.events[p].time <= m.events[q].time
      ensures m.events[p].time == m.events[q].time ==> m.events[p].Shared? && m.events[q].Shared?
    {
      assert track.events[n - 1 - q].Timed() && track.events[n - 1 - p].Timed();
    }
  }

  lemma MirrorNext(track: Track, last: nat, p: nat, q: nat)
    requires track.Valid() && Consecutive(track) && p < q < |track.events|
    requires var m := MirrorTrack(track, last);
             m.events[p].Timed() && m.events[q].Timed() && m.SameBlock(p, q) && NoneTimed(m, p + 1, q)
    ensures MirrorTrack(track, last).events[q].time <= MirrorTrack(track, last).events[p].time + 1
  {
    hide Track.SameBlock;
    var n, m := |track.events|, MirrorTrack(track, last);
    var a, b := n - 1 - q, n - 1 - p;
    MirrorSameBlock(track, last, a, b);
    forall k | a + 1 <= k < b ensures !track.events[k].Timed() {
      assert !m.events[n - 1 - k].Timed();
    }
    assert NoneTimed(track, a + 1, b);
    assert track.events[a].Timed() && track.events[b].Timed();
  }

  lemma MirrorEdge(track: Track, last: nat, p: nat, q: nat, r: nat)
    requires track.Valid() && Consecutive(track) && p < q < r < |track.events|
    requires var m := MirrorTrack(track, last); m.events[p].Timed() && m.events[q].View? && m.events[r].Timed()
    ensures !MirrorTrack(track, last).SameBlock(p, r)
  {
    hide Track.SameBlock, NoneTimed;
    var n := |track.events|;
    MirrorSameBlock(track, last, n - 1 - r, n - 1 - p);
    assert track.events[n - 1 - r].Timed() && track.events[n - 1 - q].View? && track.events[n - 1 - p].Timed();
  }

  lemma MirrorConsecutive(track: Track, last: nat)
    requires track.Valid() && Consecutive(track)
    ensures Consecutive(MirrorTrack(track, last))
  {
    hide Track.SameBlock, NoneTimed;
    var n, m := |track.events|, MirrorTrack(track, last);
    forall p, q | 0 <= p < q < n && m.events[p].Timed() && m.events[q].Timed() && m.SameBlock(p, q) &&
                  NoneTimed(m, p + 1, q)
      ensures m.events[q].time <= m.events[p].time + 1
    {
      MirrorNext(track, last, p, q);
    }
    forall p, q, r | 0 <= p < q < r < n && m.events[p].Timed() && m.events[q].View? && m.events[r].Timed()
      ensures !m.SameBlock(p, r)
    {
      MirrorEdge(track, last, p, q, r);
    }
  }

  lemma MirrorTimes(sys: System)
    requires ValidTracks(sys) && Times(sys)
    ensures Times(Mirror(sys))
  {
    var m := Mirror(sys);
    forall t | 1 <= t <= m.last ensures HasOwner(m, t) {
      var u := sys.last + 1 - t;
      assert HasOwner(sys, u);
      var w: nat, p: nat :| IsShared(sys, w, p, u);
      assert IsShared(m, w, |sys.tracks[w].events| - 1 - p, t);
    }
    forall w, p | 0 <= w < |m.tracks| && 0 <= p < |m.tracks[w].events| && m.tracks[w].events[p].Timed()
      ensures 1 <= m.tracks[w].events[p].time <= m.last
    {
      assert sys.tracks[w].events[|sys.tracks[w].events| - 1 - p].Timed();
    }
  }

  lemma MirrorOneOwner(sys: System)
    requires ValidTracks(sys) && OneOwner(sys)
    ensures OneOwner(Mirror(sys))
  {
    hide Track.SameBlock;
    var m := Mirror(sys);
    forall w: nat, p: nat, v: nat, q: nat, t: int | IsShared(m, w, p, t) && IsShared(m, v, q, t)
      ensures w == v && (p < q ==> m.tracks[w].SameBlock(p, q))
    {
      var n, k, u := |sys.tracks[w].events|, |sys.tracks[v].events|, sys.last + 1 - t;
      assert IsShared(sys, w, n - 1 - p, u) && IsShared(sys, v, k - 1 - q, u);
      if p < q {
        MirrorSameBlockBack(sys.tracks[w], sys.last, n - 1 - q, n - 1 - p);
      }
    }
  }

  lemma MirrorWellFormed(sys: System)
    requires WellFormed(sys)
    ensures WellFormed(Mirror(sys))
  {
    hide Times, OneOwner, Increasing, Consecutive;
    MirrorTimes(sys);
    MirrorOneOwner(sys);
    forall w | 0 <= w < |sys.tracks| ensures Increasing(Mirror(sys).tracks[w]) && Consecutive(Mirror(sys).tracks[w]) {
      MirrorIncreasing(sys.tracks[w], sys.last);
      MirrorConsecutive(sys.tracks[w], sys.last);
    }
  }

  // ---------------------------------------------------------------- safety

  /** The changes that are in effect are exactly those of times up to the time of the process. */
  ghost predicate Exact(sys: System, s: State)
    requires InRange(sys, s)
  {
    forall w, p | 0 <= w < |s.workers| && 0 <= p < |sys.tracks[w].events| && sys.tracks[w].events[p].Shared? ::
      p < s.workers[w].pos <==> sys.tracks[w].events[p].time <= s.time
  }

  /** A movement starts with every thread at the boundary of a block. */
  ghost predicate Start(sys: System, s: State) {
    && InRange(sys, s) && 0 <= s.time <= sys.last && s.lock.None? && !s.complete
    && (forall w | 0 <= w < |s.workers| ::
          s.workers[w].phase.Idle? && sys.tracks[w].bounds[s.workers[w].pos])
    && Exact(sys, s)
  }

  ghost predicate Holds(dir: Direction, sys: System, s: State) {
    && InRange(sys, s) && WellFormed(sys)
    && if dir.Forward? then Inv(sys, s) else Inv(Mirror(sys), MirrorState(sys, s))
  }

  lemma MirrorExact(sys: System, s: State)
    requires InRange(sys, s)
    ensures Exact(Mirror(sys), MirrorState(sys, s)) <==> Exact(sys, s)
  {
    var m, r := Mirror(sys), MirrorState(sys, s);
    if Exact(sys, s) {
      forall w, p | 0 <= w < |s.workers| && 0 <= p < |m.tracks[w].events| && m.tracks[w].events[p].Shared?
        ensures p < r.workers[w].pos <==> m.tracks[w].events[p].time <= r.time
      {
        assert sys.tracks[w].events[|sys.tracks[w].events| - 1 - p].Shared?;
      }
    }
    if Exact(m, r) {
      forall w, p | 0 <= w < |s.workers| && 0 <= p < |sys.tracks[w].events| && sys.tracks[w].events[p].Shared?
        ensures p < s.workers[w].pos <==> sys.tracks[w].events[p].time <= s.time
      {
        assert m.tracks[w].events[|sys.tracks[w].events| - 1 - p].Shared?;
      }
    }
  }

  lemma StartInv(sys: System, s: State)
    requires WellFormed(sys) && Start(sys, s)
    ensures Inv(sys, s)
  {
    hide WellFormed;
  }

  lemma StartHolds(dir: Direction, sys: System, s: State)
    requires WellFormed(sys) && Start(sys, s)
    ensures Holds(dir, sys, s)
  {
    hide WellFormed, Exact, Inv;
    if dir.Forward? {
      StartInv(sys, s);
    } else {
      MirrorExact(sys, s);
      MirrorWellFormed(sys);
      StartInv(Mirror(sys), MirrorState(sys, s));
    }
  }

  lemma StepHolds(dir: Direction, sys: System, s: State, a: Action)
    requires Holds(dir, sys, s) && Enabled(dir, sys, s, a)
    ensures Holds(dir, sys, Step(dir, sys, s, a))
  {
    hide WellFormed, Inv, Step, Enabled;
    if dir.Forward? {
      StepKeeps(sys, s, a);
    } else {
      MirrorStep(sys, s, a);
      StepKeeps(Mirror(sys), MirrorState(sys, s), a);
    }
  }

  lemma InvExact(sys: System, s: State)
    requires Inv(sys, s) && s.lock.None?
    ensures Exact(sys, s)
  {
    hide WellFormed, Placed, NoGap;
    forall w, p | 0 <= w < |s.workers| && 0 <= p < |sys.tracks[w].events| && sys.tracks[w].events[p].Shared?
      ensures p < s.workers[w].pos <==> sys.tracks[w].events[p].time <= s.time
    {
      assert Timely(sys, s, w, p);
    }
  }

  lemma HoldsExact(dir: Direction, sys: System, s: State)
    requires Holds(dir, sys, s)
    ensures 0 <= s.time <= sys.last
    ensures s.lock.None? ==> Exact(sys, s)
  {
    hide WellFormed, Exact, Placed, NoGap, Timely;
    if s.lock.None? {
      if dir.Forward? {
        InvExact(sys, s);
      } else {
        InvExact(Mirror(sys), MirrorState(sys, s));
        MirrorExact(sys, s);
      }
    }
  }

  ghost predicate CanRun(dir: Direction, sys: System, s: State, actions: seq<Action>)
    requires InRange(sys, s)
    decreases actions
  {
    actions == [] ||
    (Enabled(dir, sys, s, actions[0]) && CanRun(dir, sys, Step(dir, sys, s, actions[0]), actions[1..]))
  }

  ghost function Run(dir: Direction, sys: System, s: State, actions: seq<Action>): (r: State)
    requires InRange(sys, s) && CanRun(dir, sys, s, actions)
    ensures InRange(sys, r)
    decreases actions
  {
    if actions == [] then s else Run(dir, sys, Step(dir, sys, s, actions[0]), actions[1..])
  }

  lemma {:induction false} RunHolds(dir: Direction, sys: System, s: State, actions: seq<Action>)
    requires Holds(dir, sys, s) && CanRun(dir, sys, s, actions)
    ensures Holds(dir, sys, Run(dir, sys, s, actions))
    decreases actions
  {
    hide Inv, Step, Enabled, WellFormed;
    if actions != [] {
      StepHolds(dir, sys, s, actions[0]);
      RunHolds(dir, sys, Step(dir, sys, s, actions[0]), actions[1..]);
    }
  }

  /** Over all interleavings, whenever no worker holds the lock, the changes in effect are exactly those
      timed up to the time of the process. */
  lemma Safety(dir: Direction, sys: System, s: State, actions: seq<Action>)
    requires WellFormed(sys) && Start(sys, s) && CanRun(dir, sys, s, actions)
    ensures var r := Run(dir, sys, s, actions);
            0 <= r.time <= sys.last && (r.lock.None? ==> Exact(sys, r))
  {
    hide Inv, Start, WellFormed, Exact;
    StartHolds(dir, sys, s);
    RunHolds(dir, sys, s, actions);
    HoldsExact(dir, sys, Run(dir, sys, s, actions));
  }

  /** So the state that the changes produce depends on the time of the process alone: not on the
      schedule, nor on the direction of the last movement. */
  lemma TimeDetermines(sys: System, s: State, r: State)
    requires InRange(sys, s) && InRange(sys, r) && Exact(sys, s) && Exact(sys, r) && s.time == r.time
    ensures forall w, p | 0 <= w < |s.workers| && 0 <= p < |sys.tracks[w].events| && sys.tracks[w].events[p].Shared? ::
              p < s.workers[w].pos <==> p < r.workers[w].pos
  {
  }

  // ---------------------------------------------------------------- progress

  ghost predicate CanStep(dir: Direction, sys: System, s: State, a: Action) {
    InRange(sys, s) && Enabled(dir, sys, s, a)
  }

  /** A worker that is not waiting can always go on. */
  lemma NotWaiting(sys: System, s: State, w: nat) returns (a: Action)
    requires Inv(sys, s) && w < |s.workers| && !s.workers[w].phase.Done?
    requires var worker, track := s.workers[w], sys.tracks[w];
             worker.phase.Moving? && s.lock != Some(w) ==>
               worker.pos < |track.events| && !track.events[worker.pos].Timed()
    ensures a.w == w && CanStep(Forward, sys, s, a)
  {
    hide WellFormed, Timely, NoGap;
    assert Placed(sys, s, w);
    match s.workers[w].phase
    case Idle => a := if s.workers[w].pos < |sys.tracks[w].events| then Begin(w) else Finish(w);
    case Moving => a := Move(w);
    case Rewinding => a := Undo(w);
    case Ended => a := Check(w);
    case AskProcess => a := Ask(w, false);
    case AskThread => a := Ask(w, false);
    case Leaving => a := Leave(w);
  }

  /** A waiting worker may go on if the next time of its log is not after the next time of the process. */
  lemma MayAcquire(sys: System, s: State, w: nat)
    requires Inv(sys, s) && w < |s.workers| && s.workers[w].phase.Moving? && s.lock.None?
    requires var pos, events := s.workers[w].pos, sys.tracks[w].events;
             && pos < |events| && events[pos].Timed()
             && events[pos].time <= s.time + (if events[pos].Shared? then 1 else 0)
    ensures CanStep(Forward, sys, s, Acquire(w))
  {
    hide WellFormed, Placed, Timely, NoGap;
  }

  lemma OwnerMayStep(sys: System, s: State, w: nat, p: nat) returns (a: Action)
    requires Inv(sys, s) && s.lock.None? && !s.complete && IsShared(sys, w, p, s.time + 1)
    ensures a.w == w && CanStep(Forward, sys, s, a)
  {
    hide OneOwner, Consecutive, NoGap;
    var pos, events := s.workers[w].pos, sys.tracks[w].events;
    assert Timely(sys, s, w, p) && Placed(sys, s, w);
    assert pos <= p;
    if s.workers[w].phase.Moving? && events[pos].Timed() {
      assert Increasing(sys.tracks[w]);
      assert events[pos].time <= events[p].time;
      MayAcquire(sys, s, w);
      a := Acquire(w);
    } else {
      a := NotWaiting(sys, s, w);
    }
  }

  lemma Owner(sys: System, t: int) returns (w: nat, p: nat)
    requires WellFormed(sys) && 1 <= t <= sys.last
    ensures IsShared(sys, w, p, t)
  {
    assert HasOwner(sys, t);
    w, p :| IsShared(sys, w, p, t);
  }

  lemma Pending(sys: System, s: State, w: nat)
    requires Inv(sys, s) && w < |s.workers| && s.workers[w].phase.Moving?
    ensures s.workers[w].pos < |sys.tracks[w].events|
  {
    hide WellFormed, Timely, NoGap;
    assert Placed(sys, s, w);
  }

  lemma CanAlwaysStep(sys: System, s: State, w: nat) returns (a: Action)
    requires Inv(sys, s) && w < |s.workers| && !s.workers[w].phase.Done?
    ensures CanStep(Forward, sys, s, a)
  {
    hide WellFormed, Placed, Timely, NoGap;
    if s.lock.Some? {
      LockIsHeldLive(sys, s);
      a := NotWaiting(sys, s, s.lock.value);
      return;
    }
    if s.workers[w].phase.Moving? {
      Pending(sys, s, w);
    }
    var pos, events := s.workers[w].pos, sys.tracks[w].events;
    if !s.workers[w].phase.Moving? || !events[pos].Timed() {
      a := NotWaiting(sys, s, w);
    } else if s.complete {
      a := Acquire(w);
    } else if s.time < sys.last {
      var v: nat, p: nat := Owner(sys, s.time + 1);
      a := OwnerMayStep(sys, s, v, p);
    } else {
      AllApplied(sys, s, w);
      MayAcquire(sys, s, w);
      a := Acquire(w);
    }
  }

  lemma LockIsHeldLive(sys: System, s: State)
    requires Inv(sys, s) && s.lock.Some?
    ensures s.lock.value < |s.workers| && !s.workers[s.lock.value].phase.Done?
  {
    hide WellFormed, Timely, NoGap;
    assert Placed(sys, s, s.lock.value);
  }

  lemma AllApplied(sys: System, s: State, w: nat)
    requires Inv(sys, s) && w < |s.workers| && s.lock.None? && s.time == sys.last
    requires s.workers[w].pos < |sys.tracks[w].events| && sys.tracks[w].events[s.workers[w].pos].Timed()
    ensures sys.tracks[w].events[s.workers[w].pos].View?
    ensures sys.tracks[w].events[s.workers[w].pos].time <= s.time
  {
    hide Placed, OneOwner, Increasing, Consecutive, NoGap;
    assert Timely(sys, s, w, s.workers[w].pos);
  }

  /** While any worker is still at work, some worker can take a step: the waits never block them all. */
  lemma Progress(dir: Direction, sys: System, s: State, w: nat) returns (a: Action)
    requires Holds(dir, sys, s) && w < |s.workers| && !s.workers[w].phase.Done?
    ensures CanStep(dir, sys, s, a)
  {
    hide WellFormed, Inv, Enabled;
    if dir.Forward? {
      a := CanAlwaysStep(sys, s, w);
    } else {
      a := CanAlwaysStep(Mirror(sys), MirrorState(sys, s), w);
      MirrorEnabled(sys, s, a);
    }
  }

  /** The time of the change that is next to be made, or to be taken back. */
  function NextTime(dir: Direction, s: State): int { if dir.Forward? then s.time + 1 else s.time }

  /** The owner of the next time is never blocked, in either direction, and there is one while a time is left. */
  lemma OwnerIsNotBlocked(dir: Direction, sys: System, s: State, w: nat, p: nat) returns (a: Action)
    requires Holds(dir, sys, s) && s.lock.None? && !s.complete && IsShared(sys, w, p, NextTime(dir, s))
    ensures a.w == w && CanStep(dir, sys, s, a)
  {
    hide WellFormed, Inv, Enabled;
    if dir.Forward? {
      a := OwnerMayStep(sys, s, w, p);
    } else {
      a := OwnerMayStep(Mirror(sys), MirrorState(sys, s), w, |sys.tracks[w].events| - 1 - p);
      MirrorEnabled(sys, s, a);
    }
  }

  lemma NextHasOwner(dir: Direction, sys: System, s: State)
    requires Holds(dir, sys, s) && 1 <= NextTime(dir, s) <= sys.last
    ensures exists w: nat, p: nat :: IsShared(sys, w, p, NextTime(dir, s))
  {
    hide Inv;
    var w, p := Owner(sys, NextTime(dir, s));
  }

  // ---------------------------------------------------------------- termination

  function Distance(a: nat, b: nat): nat { if a < b then b - a else a - b }

  /** How many more steps a worker that moves forward can take, at most. */
  ghost function Rank(sys: System, s: State, w: nat): nat
    requires InRange(sys, s) && w < |s.workers|
  {
    var worker, n := s.workers[w], |sys.tracks[w].events|;
    var ahead := 8 * (n - worker.pos) + 2 * n;
    match worker.phase
    case Idle => ahead + 10
    case Moving => ahead + if s.lock == Some(w) then 8 else 9
    case Ended => ahead + 15
    case AskProcess => ahead + 14
    case AskThread => ahead + 13
    case Rewinding => Distance(worker.entry, worker.pos) + 2
    case Leaving => 1
    case Done => 0
  }

  ghost function Total(sys: System, s: State, n: nat): nat
    requires InRange(sys, s) && n <= |s.workers|
  {
    if n == 0 then 0 else Total(sys, s, n - 1) + Rank(sys, s, n - 1)
  }

  lemma {:induction false} TotalFalls(sys: System, s: State, r: State, w: nat, n: nat)
    requires InRange(sys, s) && InRange(sys, r) && w < |s.workers| && n <= |s.workers|
    requires Rank(sys, r, w) < Rank(sys, s, w)
    requires forall v | 0 <= v < |s.workers| && v != w :: Rank(sys, r, v) == Rank(sys, s, v)
    ensures Total(sys, r, n) + (if w < n then 1 else 0) <= Total(sys, s, n)
  {
    hide Rank, InRange;
    if n > 0 {
      TotalFalls(sys, s, r, w, n - 1);
    }
  }

  lemma RankFalls(sys: System, s: State, a: Action)
    requires Inv(sys, s) && Enabled(Forward, sys, s, a)
    ensures Rank(sys, Step(Forward, sys, s, a), a.w) < Rank(sys, s, a.w)
  {
    hide WellFormed, Timely, NoGap;
    assert Placed(sys, s, a.w);
  }

  lemma RankElsewhere(sys: System, s: State, a: Action, v: nat)
    requires InRange(sys, s) && Enabled(Forward, sys, s, a) && v < |s.workers| && v != a.w
    ensures Rank(sys, Step(Forward, sys, s, a), v) == Rank(sys, s, v)
  {
  }

  ghost function Measure(dir: Direction, sys: System, s: State): nat
    requires InRange(sys, s)
  {
    if dir.Forward? then Total(sys, s, |s.workers|) else Total(Mirror(sys), MirrorState(sys, s), |s.workers|)
  }

  lemma ForwardFalls(sys: System, s: State, a: Action)
    requires Inv(sys, s) && Enabled(Forward, sys, s, a)
    ensures Total(sys, Step(Forward, sys, s, a), |s.workers|) < Total(sys, s, |s.workers|)
  {
    hide WellFormed, Placed, Timely, NoGap, Rank, Step;
    RankFalls(sys, s, a);
    forall v | 0 <= v < |s.workers| && v != a.w
      ensures Rank(sys, Step(Forward, sys, s, a), v) == Rank(sys, s, v)
    {
      RankElsewhere(sys, s, a, v);
    }
    TotalFalls(sys, s, Step(Forward, sys, s, a), a.w, |s.workers|);
  }

  lemma MeasureFalls(dir: Direction, sys: System, s: State, a: Action)
    requires Holds(dir, sys, s) && Enabled(dir, sys, s, a)
    ensures Measure(dir, sys, Step(dir, sys, s, a)) < Measure(dir, sys, s)
  {
    hide Inv, WellFormed, Step, Enabled, Total;
    SameCount(dir, sys, s, a);
    if dir.Forward? {
      ForwardFalls(sys, s, a);
    } else {
      MirrorStep(sys, s, a);
      ForwardFalls(Mirror(sys), MirrorState(sys, s), a);
    }
  }

  lemma SameCount(dir: Direction, sys: System, s: State, a: Action)
    requires InRange(sys, s) && Enabled(dir, sys, s, a)
    ensures |Step(dir, sys, s, a).workers| == |s.workers|
  {
  }

  /** Every movement ends: no run is longer than the measure of its first state. */
  lemma {:induction false} RunsEnd(dir: Direction, sys: System, s: State, actions: seq<Action>)
    requires Holds(dir, sys, s) && CanRun(dir, sys, s, actions)
    ensures |actions| <= Measure(dir, sys, s)
    decreases actions
  {
    hide Inv, WellFormed, Step, Enabled, Measure;
    if actions != [] {
      StepHolds(dir, sys, s, actions[0]);
      MeasureFalls(dir, sys, s, actions[0]);
      RunsEnd(dir, sys, Step(dir, sys, s, actions[0]), actions[1..]);
    }
  }

  // ---------------------------------------------------------------- outcome

  /** A worker that is done is at the boundary of a block, and has moved to the end of its log unless the
      movement was completed by a predicate. */
  lemma DoneAtBoundary(dir: Direction, sys: System, s: State, w: nat)
    requires Holds(dir, sys, s) && w < |s.workers| && s.workers[w].phase.Done?
    ensures sys.tracks[w].bounds[s.workers[w].pos]
    ensures !s.complete ==> AtEnd(dir, sys.tracks[w], s.workers[w].pos)
  {
    hide WellFormed, Timely, NoGap;
    if dir.Forward? {
      assert Placed(sys, s, w);
    } else {
      assert Placed(Mirror(sys), MirrorState(sys, s), w);
    }
  }

  lemma UndoneIsLocal(dir: Direction, sys: System, s: State, w: nat)
    requires Holds(dir, sys, s) && Enabled(dir, sys, s, Undo(w)) && s.workers[w].pos != s.workers[w].entry
    ensures Upcoming(Opposite(dir), sys.tracks[w], s.workers[w].pos) == Local
  {
    hide WellFormed, Placed, Timely, NoGap;
    if dir.Forward? {
      UndoIsLocal(sys, s, Undo(w));
    } else {
      MirrorEnabled(sys, s, Undo(w));
      UndoIsLocal(Mirror(sys), MirrorState(sys, s), Undo(w));
      MirrorUpcoming(sys.tracks[w], sys.last, s.workers[w].pos, Forward);
    }
  }

  /** A cancelled block changes nothing that is shared, and puts its thread back where the block began. */
  lemma CancelRestores(dir: Direction, sys: System, s: State, w: nat)
    requires Holds(dir, sys, s) && Enabled(dir, sys, s, Undo(w))
    ensures var r := Step(dir, sys, s, Undo(w));
            && r.time == s.time && SameChanges(sys, s, r)
            && (!r.workers[w].phase.Rewinding? ==>
                  r.workers[w].pos == s.workers[w].entry && sys.tracks[w].bounds[r.workers[w].pos])
  {
    hide WellFormed, Timely, NoGap;
    if s.workers[w].pos != s.workers[w].entry {
      UndoneIsLocal(dir, sys, s, w);
    } else if dir.Forward? {
      assert Placed(sys, s, w);
    } else {
      assert Placed(Mirror(sys), MirrorState(sys, s), w);
    }
  }

  /** The same changes are in effect. */
  ghost predicate SameChanges(sys: System, s: State, r: State)
    requires InRange(sys, s) && InRange(sys, r)
  {
    forall w, p | 0 <= w < |s.workers| && 0 <= p < |sys.tracks[w].events| && sys.tracks[w].events[p].Shared? ::
      p < s.workers[w].pos <==> p < r.workers[w].pos
  }

  /** The movement is complete, and whoever holds the lock has finished its block. */
  ghost predicate Quiet(s: State) {
    && s.complete
    && (s.lock.Some? ==> s.lock.value < |s.workers| && !s.workers[s.lock.value].phase.Moving?)
  }

  lemma QuietStep(dir: Direction, sys: System, s: State, a: Action)
    requires Holds(dir, sys, s) && Enabled(dir, sys, s, a) && Quiet(s)
    ensures var r := Step(dir, sys, s, a); Quiet(r) && r.time == s.time && SameChanges(sys, s, r)
  {
    hide Inv, WellFormed, SameChanges;
    LockAndPhase(dir, sys, s, a.w);
    if a.Undo? {
      CancelRestores(dir, sys, s, a.w);
    } else {
      SamePlaces(dir, sys, s, a);
    }
  }

  lemma SamePlaces(dir: Direction, sys: System, s: State, a: Action)
    requires InRange(sys, s) && Enabled(dir, sys, s, a) && Quiet(s) && !a.Undo?
    requires a.Move? ==> s.lock != Some(a.w)
    ensures SameChanges(sys, s, Step(dir, sys, s, a))
  {
  }

  lemma {:induction false} QuietRun(dir: Direction, sys: System, s: State, actions: seq<Action>)
    requires Holds(dir, sys, s) && CanRun(dir, sys, s, actions) && Quiet(s)
    ensures var r := Run(dir, sys, s, actions); r.time == s.time && SameChanges(sys, s, r)
    decreases actions
  {
    hide Inv, WellFormed, Step, Enabled;
    if actions != [] {
      StepHolds(dir, sys, s, actions[0]);
      QuietStep(dir, sys, s, actions[0]);
      QuietRun(dir, sys, Step(dir, sys, s, actions[0]), actions[1..]);
    }
  }

  /** Once a process predicate has been satisfied, no change is made any more: whatever it found in the
      state that the lock protects is still so when every worker is done. */
  lemma SatisfiedStays(dir: Direction, sys: System, s: State, w: nat, actions: seq<Action>)
    requires Holds(dir, sys, s) && Enabled(dir, sys, s, Ask(w, true)) && s.workers[w].phase.AskProcess?
    requires CanRun(dir, sys, Step(dir, sys, s, Ask(w, true)), actions)
    ensures var r := Run(dir, sys, Step(dir, sys, s, Ask(w, true)), actions);
            r.time == s.time && SameChanges(sys, s, r)
  {
    hide Inv, WellFormed;
    StepHolds(dir, sys, s, Ask(w, true));
    LockAndPhase(dir, sys, s, w);
    QuietRun(dir, sys, Step(dir, sys, s, Ask(w, true)), actions);
  }

  lemma LockAndPhase(dir: Direction, sys: System, s: State, w: nat)
    requires Holds(dir, sys, s) && w < |s.workers|
    ensures s.workers[w].phase.AskProcess? ==> s.lock == Some(w)
    ensures s.workers[w].phase.Idle? ==> s.lock != Some(w)
  {
    hide WellFormed, Timely, NoGap;
    if dir.Forward? {
      assert Placed(sys, s, w);
    } else {
      assert Placed(Mirror(sys), MirrorState(sys, s), w);
    }
  }

  // ---------------------------------------------------------------- the order of changes

  /** A change is made when those of earlier times are in effect and those of later times are not; its own
      time belongs to its own thread. */
  lemma InOrderForward(sys: System, s: State, w: nat, v: nat, p: nat)
    requires Inv(sys, s) && Enabled(Forward, sys, s, Move(w)) && v < |s.workers| && p < |sys.tracks[v].events|
    requires sys.tracks[w].events[s.workers[w].pos].Shared? && sys.tracks[v].events[p].Shared?
    ensures var t, u := sys.tracks[w].events[s.workers[w].pos].time, sys.tracks[v].events[p].time;
            && (u < t ==> p < s.workers[v].pos) && (u > t ==> p >= s.workers[v].pos) && (u == t ==> v == w)
  {
    hide Placed, NoGap, Times, Consecutive;
    var pos := s.workers[w].pos;
    DueNow(sys, s, w);
    assert Timely(sys, s, v, p) && Timely(sys, s, w, pos);
    assert Increasing(sys.tracks[w]);
    var t, u := sys.tracks[w].events[pos].time, sys.tracks[v].events[p].time;
    if u == t {
      assert IsShared(sys, w, pos, t) && IsShared(sys, v, p, t);
    }
  }

  /** Removing takes the changes back in exactly the reverse order. */
  lemma InOrder(dir: Direction, sys: System, s: State, w: nat, v: nat, p: nat)
    requires Holds(dir, sys, s) && Enabled(dir, sys, s, Move(w)) && v < |s.workers| && p < |sys.tracks[v].events|
    requires Upcoming(dir, sys.tracks[w], s.workers[w].pos).Shared? && sys.tracks[v].events[p].Shared?
    ensures var t, u := Upcoming(dir, sys.tracks[w], s.workers[w].pos).time, sys.tracks[v].events[p].time;
            && (u < t ==> p < s.workers[v].pos) && (u > t ==> p >= s.workers[v].pos) && (u == t ==> v == w)
  {
    hide WellFormed, Inv;
    if dir.Forward? {
      InOrderForward(sys, s, w, v, p);
    } else {
      MirrorEnabled(sys, s, Move(w));
      InOrderForward(Mirror(sys), MirrorState(sys, s), w, v, |sys.tracks[v].events| - 1 - p);
    }
  }
}
