/** Stopping all threads of a process: a master waits for all others to park, with no spurious wake-ups. */
module SynchronizedExit {
  import opened Common

  /** What a thread does once it has been released from a stop. */
  datatype Purpose = CarryOn | Unregister | StopAgain

  /** A master that has unregistered itself is Gone, but still the master. */
  datatype Status =
    | Out
    | Running
    | Waiting
    | Master
    | Gone
    | Parked(purpose: Purpose)
    | Woken(purpose: Purpose)
  {
    predicate Registered() { !Out? && !Gone? }

    predicate Stopped() { Parked? || Woken? }

    predicate Leads() { Waiting? || Master? || Gone? }
  }

  datatype State = State(threads: seq<Status>, num: int, stopped: int, master: Option<nat>)

  datatype Action =
    | ThreadStart(t: nat)
    | ThreadFinish(t: nat)
    | Check(t: nat)
    | StopAll(t: nat)
    | Exit(t: nat)
    | Proceed(t: nat)
    | CancelStop(t: nat)
    | Resume(t: nat)

  // ---------------------------------------------------------------- the methods of the source

  function Set(s: State, t: nat, status: Status): State
    requires t < |s.threads|
  {
    s.(threads := s.threads[t := status])
  }

  /** Join the stop: the master does not. */
  function JoinStop(s: State, t: nat, purpose: Purpose): State
    requires t < |s.threads|
  {
    if s.master == Some(t) then s
    else Set(s, t, Parked(purpose)).(stopped := s.stopped + 1)
  }

  /** Become the master of a new stop, if there is none; the wait is over at once if all are stopped. */
  function InitiateStop(s: State, t: nat): State
    requires t < |s.threads|
  {
    if s.stopped != 0 then s
    else Set(s, t, if s.stopped + 1 < s.num then Waiting else Master).(stopped := s.stopped + 1, master := Some(t))
  }

  /** `exit` and `abort` try to be the master until they are. */
  function ExitOrJoin(s: State, t: nat): State
    requires t < |s.threads|
  {
    if s.stopped != 0 then JoinStop(s, t, StopAgain) else InitiateStop(s, t)
  }

  function WakeAll(threads: seq<Status>): (r: seq<Status>)
    ensures |r| == |threads|
    ensures forall i | 0 <= i < |threads| ::
              r[i] == if threads[i].Parked? then Woken(threads[i].purpose) else threads[i]
  {
    seq(|threads|, i requires 0 <= i < |threads| =>
          if threads[i].Parked? then Woken(threads[i].purpose) else threads[i])
  }

  function EndStop(s: State, t: nat): State
    requires t < |s.threads|
  {
    if s.master != Some(t) then s
    else
      var r := Set(s, t, if s.threads[t].Gone? then Out else Running);
      r.(threads := WakeAll(r.threads), stopped := s.stopped - 1, master := None)
  }

  /** Which threads can take which steps. A thread that waits or is parked takes none of its own accord. */
  predicate Enabled(s: State, a: Action) {
    && a.t < |s.threads|
    && var status := s.threads[a.t];
       match a
       case ThreadStart(_) => status.Out?
       case ThreadFinish(_) => status.Running? || status.Master?
       case Check(_) => status.Running? || status.Master?
       case StopAll(_) => status.Running? || status.Master?
       case Exit(_) => status.Running?
       case Proceed(_) => status.Waiting? && s.stopped >= s.num
       case CancelStop(_) => status.Running? || status.Master? || status.Gone?
       case Resume(_) => status.Woken?
  }

  function Step(s: State, a: Action): (r: State)
    requires Enabled(s, a)
    ensures |r.threads| == |s.threads|
  {
    var t := a.t;
    match a
    case ThreadStart(_) =>
      var r := Set(s, t, Running).(num := s.num + 1);
      if s.stopped != 0 then JoinStop(r, t, CarryOn) else r
    case ThreadFinish(_) =>
      if s.master == Some(t) then Set(s, t, Gone).(num := s.num - 1)
      else if s.stopped != 0 then JoinStop(s, t, Unregister)
      else Set(s, t, Out).(num := s.num - 1)
    case Check(_) => if s.stopped != 0 then JoinStop(s, t, CarryOn) else s
    case StopAll(_) => InitiateStop(s, t)
    case Exit(_) => ExitOrJoin(s, t)
    case Proceed(_) => Set(s, t, Master)
    case CancelStop(_) => EndStop(s, t)
    case Resume(_) =>
      var r := s.(stopped := s.stopped - 1);
      match s.threads[t].purpose
      case CarryOn => Set(r, t, Running)
      case Unregister => Set(r, t, Out).(num := s.num - 1)
      case StopAgain => ExitOrJoin(r, t)
  }

  // ---------------------------------------------------------------- counting threads

  function Count(threads: seq<Status>, p: Status -> bool): nat {
    if threads == [] then 0
    else Count(threads[..|threads| - 1], p) + if p(threads[|threads| - 1]) then 1 else 0
  }

  lemma {:induction false} CountUpdate(threads: seq<Status>, p: Status -> bool, i: nat, status: Status)
    requires i < |threads|
    ensures Count(threads[i := status], p) ==
            Count(threads, p) - (if p(threads[i]) then 1 else 0) + (if p(status) then 1 else 0)
  {
    var n := |threads| - 1;
    if i < n {
      CountUpdate(threads[..n], p, i, status);
      assert threads[i := status][..n] == threads[..n][i := status];
    } else {
      assert threads[i := status][..n] == threads[..n];
    }
  }

  lemma {:induction false} CountNone(threads: seq<Status>, p: Status -> bool)
    ensures Count(threads, p) == 0 <==> forall i | 0 <= i < |threads| :: !p(threads[i])
  {
    if threads != [] {
      CountNone(threads[..|threads| - 1], p);
    }
  }

  /** The sum over two exclusive conditions. */
  lemma {:induction false} CountSplit(threads: seq<Status>, p: Status -> bool, q: Status -> bool, r: Status -> bool)
    requires forall x :: r(x) <==> p(x) || q(x)
    requires forall x :: !(p(x) && q(x))
    ensures Count(threads, r) == Count(threads, p) + Count(threads, q)
  {
    if threads != [] {
      CountSplit(threads[..|threads| - 1], p, q, r);
    }
  }

  lemma {:induction false} CountWake(threads: seq<Status>, p: Status -> bool)
    requires forall x: Purpose :: p(Parked(x)) == p(Woken(x))
    ensures Count(WakeAll(threads), p) == Count(threads, p)
  {
    if threads != [] {
      var n := |threads| - 1;
      CountWake(threads[..n], p);
      assert WakeAll(threads)[..n] == WakeAll(threads[..n]);
    }
  }

  predicate IsStopped(s: Status) { s.Stopped() }

  predicate IsRegistered(s: Status) { s.Registered() }

  predicate IsLeading(s: Status) { s.Leads() }

  // ---------------------------------------------------------------- the invariant

  ghost predicate Counts(s: State) {
    && s.stopped == Count(s.threads, IsStopped) + (if s.master.Some? then 1 else 0)
    && s.num == Count(s.threads, IsRegistered)
  }

  /** There is at most one master; while there is one, no thread is on its way out of an earlier stop; and
      once it may act, every other registered thread is parked. */
  ghost predicate Led(s: State) {
    && (forall t | 0 <= t < |s.threads| :: s.threads[t].Leads() <==> s.master == Some(t))
    && (s.master.Some? ==> s.master.value < |s.threads|)
    && (s.master.Some? ==> forall t | 0 <= t < |s.threads| :: !s.threads[t].Woken?)
    && (s.master.Some? && !s.threads[s.master.value].Waiting? ==>
          forall t | 0 <= t < |s.threads| && t != s.master.value && s.threads[t].Registered() :: s.threads[t].Parked?)
  }

  ghost predicate Inv(s: State) {
    Counts(s) && Led(s)
  }

  /** No threads at all, and nothing stopped. */
  predicate Initial(s: State) {
    && s.num == 0 && s.stopped == 0 && s.master.None?
    && forall t | 0 <= t < |s.threads| :: s.threads[t].Out?
  }

  lemma InitialInv(s: State)
    requires Initial(s)
    ensures Inv(s)
  {
    CountNone(s.threads, IsStopped);
    CountNone(s.threads, IsRegistered);
  }

  lemma UpdateCounts(s: State, t: nat, status: Status)
    requires t < |s.threads|
    ensures Count(s.threads[t := status], IsStopped) ==
            Count(s.threads, IsStopped) - (if s.threads[t].Stopped() then 1 else 0) +
            (if status.Stopped() then 1 else 0)
    ensures Count(s.threads[t := status], IsRegistered) ==
            Count(s.threads, IsRegistered)
            - (if s.threads[t].Registered() then 1 else 0) + (if status.Registered() then 1 else 0)
  {
    CountUpdate(s.threads, IsStopped, t, status);
    CountUpdate(s.threads, IsRegistered, t, status);
  }

  predicate IsFree(s: Status) { s.Running? || s.Waiting? || s.Master? }

  /** Every registered thread is stopped or free, so if all are stopped but one free one, no other is free. */
  lemma OnlyOneFree(s: State, m: nat)
    requires Counts(s) && m < |s.threads| && IsFree(s.threads[m]) && s.master.Some? && s.stopped >= s.num
    ensures forall t | 0 <= t < |s.threads| && t != m && s.threads[t].Registered() :: s.threads[t].Stopped()
  {
    CountSplit(s.threads, IsStopped, IsFree, IsRegistered);
    var others := s.threads[m := Out];
    CountUpdate(s.threads, IsFree, m, Out);
    CountNone(others, IsFree);
    forall t | 0 <= t < |s.threads| && t != m && s.threads[t].Registered() ensures s.threads[t].Stopped() {
      assert others[t] == s.threads[t];
    }
  }

  /** With nothing stopped there is no master, and no thread is stopped. */
  lemma NothingStopped(s: State)
    requires Inv(s) && s.stopped == 0
    ensures s.master.None? && forall t | 0 <= t < |s.threads| :: !s.threads[t].Stopped()
  {
    CountNone(s.threads, IsStopped);
  }

  lemma JoinKeeps(s: State, t: nat, purpose: Purpose)
    requires Inv(s) && t < |s.threads| && s.threads[t].Running?
    ensures Inv(JoinStop(s, t, purpose))
  {
    UpdateCounts(s, t, Parked(purpose));
  }

  lemma InitiateKeeps(s: State, t: nat)
    requires Inv(s) && t < |s.threads| && (s.threads[t].Running? || s.threads[t].Master?)
    ensures Inv(InitiateStop(s, t))
  {
    var r := InitiateStop(s, t);
    if s.stopped == 0 {
      NothingStopped(s);
      UpdateCounts(s, t, r.threads[t]);
      assert r.threads == s.threads[t := r.threads[t]];
      if r.threads[t].Master? {
        OnlyOneFree(r, t);
      }
    }
  }

  lemma ProceedKeeps(s: State, t: nat)
    requires Inv(s) && Enabled(s, Proceed(t))
    ensures Inv(Step(s, Proceed(t)))
  {
    UpdateCounts(s, t, Master);
    OnlyOneFree(s, t);
  }

  lemma EndKeeps(s: State, t: nat)
    requires Inv(s) && t < |s.threads| && (s.threads[t].Running? || s.threads[t].Master? || s.threads[t].Gone?)
    ensures Inv(EndStop(s, t))
  {
    if s.master == Some(t) {
      var status := if s.threads[t].Gone? then Out else Running;
      UpdateCounts(s, t, status);
      CountWake(s.threads[t := status], IsStopped);
      CountWake(s.threads[t := status], IsRegistered);
    }
  }

  lemma StartKeeps(s: State, t: nat)
    requires Inv(s) && Enabled(s, ThreadStart(t))
    ensures Inv(Step(s, ThreadStart(t)))
  {
    UpdateCounts(s, t, Running);
    UpdateCounts(s, t, Parked(CarryOn));
    if s.stopped == 0 {
      NothingStopped(s);
    }
    assert s.threads[t := Running][t := Parked(CarryOn)] == s.threads[t := Parked(CarryOn)];
  }

  lemma FinishKeeps(s: State, t: nat)
    requires Inv(s) && Enabled(s, ThreadFinish(t))
    ensures Inv(Step(s, ThreadFinish(t)))
  {
    UpdateCounts(s, t, Gone);
    UpdateCounts(s, t, Out);
    UpdateCounts(s, t, Parked(Unregister));
  }

  lemma SameAgain(s: State, t: nat)
    requires t < |s.threads| && s.master.None?
    ensures ExitOrJoin(Set(s, t, Running), t) == ExitOrJoin(s, t)
  {
    var threads := s.threads[t := Running];
    assert threads[t := Parked(StopAgain)] == s.threads[t := Parked(StopAgain)];
    assert threads[t := Waiting] == s.threads[t := Waiting];
    assert threads[t := Master] == s.threads[t := Master];
  }

  lemma ResumedRuns(s: State, t: nat)
    requires Inv(s) && t < |s.threads| && s.threads[t].Woken?
    ensures s.master.None?
    ensures Inv(Set(s, t, Running).(stopped := s.stopped - 1))
    ensures Inv(Set(s, t, Out).(stopped := s.stopped - 1, num := s.num - 1))
  {
    UpdateCounts(s, t, Running);
    UpdateCounts(s, t, Out);
  }

  lemma ResumeKeeps(s: State, t: nat)
    requires Inv(s) && Enabled(s, Resume(t))
    ensures Inv(Step(s, Resume(t)))
  {
    hide Inv;
    ResumedRuns(s, t);
    var running := Set(s, t, Running).(stopped := s.stopped - 1);
    if s.threads[t].purpose.StopAgain? {
      SameAgain(s.(stopped := s.stopped - 1), t);
      if running.stopped != 0 {
        JoinKeeps(running, t, StopAgain);
      } else {
        InitiateKeeps(running, t);
      }
    }
  }

  /** Every step keeps the invariant, and so every run does. */
  lemma StepKeeps(s: State, a: Action)
    requires Inv(s) && Enabled(s, a)
    ensures Inv(Step(s, a))
  {
    hide Inv;
    match a {
      case ThreadStart(t) => StartKeeps(s, t);
      case ThreadFinish(t) => FinishKeeps(s, t);
      case Check(t) => CheckKeeps(s, t);
      case StopAll(t) => InitiateKeeps(s, t);
      case Exit(t) => ExitKeeps(s, t);
      case Proceed(t) => ProceedKeeps(s, t);
      case CancelStop(t) => EndKeeps(s, t);
      case Resume(t) => ResumeKeeps(s, t);
    }
  }

  lemma CheckKeeps(s: State, t: nat)
    requires Inv(s) && Enabled(s, Check(t))
    ensures Inv(Step(s, Check(t)))
  {
    if s.threads[t].Running? {
      JoinKeeps(s, t, CarryOn);
    }
  }

  lemma ExitKeeps(s: State, t: nat)
    requires Inv(s) && Enabled(s, Exit(t))
    ensures Inv(Step(s, Exit(t)))
  {
    if s.stopped != 0 {
      JoinKeeps(s, t, StopAgain);
    } else {
      InitiateKeeps(s, t);
    }
  }

  predicate CanRun(s: State, actions: seq<Action>)
    decreases actions
  {
    actions == [] || (Enabled(s, actions[0]) && CanRun(Step(s, actions[0]), actions[1..]))
  }

  function Run(s: State, actions: seq<Action>): State
    requires CanRun(s, actions)
    decreases actions
  {
    if actions == [] then s else Run(Step(s, actions[0]), actions[1..])
  }

  /** In every run the count of stopped threads is that of the parked and woken threads and the master, there
      is at most one master, and when it may act every other registered thread is parked. */
  lemma {:induction false} StopTheWorld(s: State, actions: seq<Action>)
    requires Inv(s) && CanRun(s, actions)
    ensures var r := Run(s, actions);
            && Counts(r)
            && (forall t, u | 0 <= t < |r.threads| && 0 <= u < |r.threads| && r.threads[t].Leads() &&
                  r.threads[u].Leads() :: t == u)
            && (forall t, u | 0 <= t < |r.threads| && 0 <= u < |r.threads| && t != u && r.threads[t].Master? &&
                  r.threads[u].Registered() :: r.threads[u].Parked?)
    decreases actions
  {
    hide Step, Enabled, Counts;
    if actions != [] {
      StepKeeps(s, actions[0]);
      StopTheWorld(Step(s, actions[0]), actions[1..]);
    }
  }

  // ---------------------------------------------------------------- a thread parked for nothing

  /** After a stop has been cancelled, and before the threads that it woke have resumed, a thread that checks
      for a stop parks although there is no master any more to wake it. Such a park is possible exactly then. */
  lemma ParksForNothing(s: State, t: nat)
    requires Inv(s) && Enabled(s, Check(t)) && s.threads[t].Running? && s.master.None?
    ensures Step(s, Check(t)).threads[t].Parked? <==> exists u :: 0 <= u < |s.threads| && s.threads[u].Stopped()
  {
    CountNone(s.threads, IsStopped);
  }

  lemma ParkedStays(s: State, u: nat, a: Action)
    requires Inv(s) && s.master.None? && u < |s.threads| && s.threads[u].Parked? && Enabled(s, a)
    ensures Step(s, a).master.None? && Step(s, a).threads[u] == s.threads[u]
  {
    UpdateCounts(s, u, Running);
    if a.Resume? {
      var without := s.threads[a.t := Running];
      UpdateCounts(s, a.t, Running);
      CountNone(without, IsStopped);
      assert without[u].Stopped();
    }
  }

  /** And it stays parked for ever: while it is, no stop can begin, and so none can end. */
  lemma {:induction false} ParkedForEver(s: State, u: nat, actions: seq<Action>)
    requires Inv(s) && s.master.None? && u < |s.threads| && s.threads[u].Parked? && CanRun(s, actions)
    ensures u < |Run(s, actions).threads| && Run(s, actions).threads[u] == s.threads[u]
    decreases actions
  {
    hide Step, Enabled, Inv;
    if actions != [] {
      StepKeeps(s, actions[0]);
      ParkedStays(s, u, actions[0]);
      ParkedForEver(Step(s, actions[0]), u, actions[1..]);
    }
  }

  // ---------------------------------------------------------------- a run that ends so

  const OUT3 := State([Out, Out, Out], 0, 0, None)

  /** Thread 0 stops the other two, resumes them, and checks for a stop before they have woken up. */
  const STRANDING := [ThreadStart(0), ThreadStart(1), ThreadStart(2), StopAll(0), Check(1), Check(2), Proceed(0),
                      CancelStop(0), Check(0)]

  const STRANDED := State([Parked(CarryOn), Woken(CarryOn), Woken(CarryOn)], 3, 3, None)

  lemma StepFirst(s: State, actions: seq<Action>, n: nat)
    requires n < |actions| && Inv(s) && Enabled(s, actions[n]) && CanRun(Step(s, actions[n]), actions[n + 1..])
    ensures CanRun(s, actions[n..]) && Run(s, actions[n..]) == Run(Step(s, actions[n]), actions[n + 1..])
  {
    hide Inv, Step, Enabled;
    assert actions[n..][1..] == actions[n + 1..];
  }

  lemma StopBegins()
    ensures Inv(State([Waiting, Running, Running], 3, 1, Some(0))) && Inv(STRANDED)
    ensures CanRun(State([Waiting, Running, Running], 3, 1, Some(0)), STRANDING[4..])
    ensures Run(State([Waiting, Running, Running], 3, 1, Some(0)), STRANDING[4..]) == STRANDED
  {
    hide Inv, CanRun, Run;
    var s4 := State([Waiting, Running, Running], 3, 1, Some(0));
    StopStarts();
    var s5 := State([Waiting, Parked(CarryOn), Running], 3, 2, Some(0));
    StepKeeps(s4, Check(1));
    var s6 := State([Waiting, Parked(CarryOn), Parked(CarryOn)], 3, 3, Some(0));
    assert Step(s4, Check(1)) == s5;
    StepKeeps(s5, Check(2));
    assert Step(s5, Check(2)) == s6;
    StopEnds();
    StepFirst(s5, STRANDING, 5);
    StepFirst(s4, STRANDING, 4);
  }

  lemma StopStarts()
    ensures Inv(State([Running, Running, Running], 3, 0, None))
    ensures Inv(State([Waiting, Running, Running], 3, 1, Some(0)))
  {
    hide Inv;
    InitialInv(OUT3);
    var s1, s2 := State([Running, Out, Out], 1, 0, None), State([Running, Running, Out], 2, 0, None);
    StepKeeps(OUT3, ThreadStart(0));
    assert Step(OUT3, ThreadStart(0)) == s1;
    StepKeeps(s1, ThreadStart(1));
    assert Step(s1, ThreadStart(1)) == s2;
    StepKeeps(s2, ThreadStart(2));
    assert Step(s2, ThreadStart(2)) == State([Running, Running, Running], 3, 0, None);
    StepKeeps(State([Running, Running, Running], 3, 0, None), StopAll(0));
    assert Step(State([Running, Running, Running], 3, 0, None), StopAll(0)) ==
           State([Waiting, Running, Running], 3, 1, Some(0));
  }

  lemma StopEnds()
    requires Inv(State([Waiting, Parked(CarryOn), Parked(CarryOn)], 3, 3, Some(0)))
    ensures CanRun(State([Waiting, Parked(CarryOn), Parked(CarryOn)], 3, 3, Some(0)), STRANDING[6..])
    ensures Run(State([Waiting, Parked(CarryOn), Parked(CarryOn)], 3, 3, Some(0)), STRANDING[6..]) == STRANDED
    ensures Inv(STRANDED)
  {
    hide Inv, CanRun, Run;
    var s6 := State([Waiting, Parked(CarryOn), Parked(CarryOn)], 3, 3, Some(0));
    var s7 := State([Master, Parked(CarryOn), Parked(CarryOn)], 3, 3, Some(0));
    var s8 := State([Running, Woken(CarryOn), Woken(CarryOn)], 3, 2, None);
    StepKeeps(s6, Proceed(0));
    assert Step(s6, Proceed(0)) == s7;
    StepKeeps(s7, CancelStop(0));
    assert Step(s7, CancelStop(0)) == s8;
    StepKeeps(s8, Check(0));
    assert Step(s8, Check(0)) == STRANDED;
    NoActions(STRANDED, STRANDING[9..]);
    StepFirst(s8, STRANDING, 8);
    StepFirst(s7, STRANDING, 7);
    StepFirst(s6, STRANDING, 6);
  }

  lemma NoActions(s: State, actions: seq<Action>)
    requires actions == []
    ensures CanRun(s, actions) && Run(s, actions) == s
  {
  }

  /** From the initial state there is a run that strands a thread: it is parked, without a master, and no
      continuation ever wakes it. */
  lemma ThreadIsStranded(more: seq<Action>)
    ensures Initial(OUT3) && CanRun(OUT3, STRANDING) && Run(OUT3, STRANDING) == STRANDED
    ensures CanRun(STRANDED, more) ==> Run(STRANDED, more).threads != [] && Run(STRANDED, more).threads[0].Parked?
  {
    hide Inv, CanRun, Run;
    var s1, s2 := State([Running, Out, Out], 1, 0, None), State([Running, Running, Out], 2, 0, None);
    var s3 := State([Running, Running, Running], 3, 0, None);
    StopStarts();
    StopBegins();
    InitialInv(OUT3);
    StepKeeps(OUT3, ThreadStart(0));
    assert Step(OUT3, ThreadStart(0)) == s1;
    StepKeeps(s1, ThreadStart(1));
    assert Step(s1, ThreadStart(1)) == s2;
    assert Step(s2, ThreadStart(2)) == s3;
    assert Step(s3, StopAll(0)) == State([Waiting, Running, Running], 3, 1, Some(0));
    StepFirst(s3, STRANDING, 3);
    StepFirst(s2, STRANDING, 2);
    StepFirst(s1, STRANDING, 1);
    StepFirst(OUT3, STRANDING, 0);
    assert STRANDING[0..] == STRANDING;
    if CanRun(STRANDED, more) {
      ParkedForEver(STRANDED, 0, more);
    }
  }
}
