/** The runtime errors of a frame: what forward replay records, and what going backward makes of it. */
module Errors {
  import opened Common
  import opened FrameModel
  import opened TraceLog

  /** The errors that became known since the previous instruction of the invocation, by position; removing an
      instruction adds them again. */
  function ErrorsSince(log: Log, start: nat, i: nat): seq<nat>
    requires i <= |log|
  {
    if i == 0 || (log[i - 1].IsInstruction() && Local(log, start, i - 1)) then []
    else
      ErrorsSince(log, start, i - 1) +
      (if log[i - 1].RuntimeError? && log[i - 1].topLevel then [i - 1] else [])
  }

  /** Errors added for one instruction at one time, whatever they were recorded with. */
  function Stamped(events: seq<nat>, instruction: Option<nat>, time: int): (r: seq<ErrorState>)
    ensures |r| == |events|
  {
    seq(|events|, k requires 0 <= k < |events| => ErrorState(events[k], instruction, time))
  }

  /** What removing instruction `i` at thread time `t` adds. */
  function ErrorsAgain(log: Log, start: nat, i: nat, t: int): (r: seq<ErrorState>)
    requires i <= |log|
  {
    if Previous(log, start, i).None? then [] else Stamped(ErrorsSince(log, start, i), ActiveAt(log, start, i), t)
  }

  // ---------------------------------------------------------------- re-running an invocation

  /** The thread time at event `n` when the invocation that started at `start` is run again from time `t`:
      instructions advance it, a call that is skipped sets it, and a new thread time has no effect. */
  function RerunTime(log: Log, start: nat, n: nat, t: int): int
    requires n <= |log|
  {
    if n <= start + 1 then t
    else if log[n - 1].FunctionEnd? && Local(log, start, n) then Exited(log, log[n - 1].functionStart)
    else RerunTime(log, start, n - 1, t) + if log[n - 1].IsInstruction() && Local(log, start, n - 1) then 1 else 0
  }

  /** The errors of an invocation that is run again from time `t`. */
  function RebuiltErrors(log: Log, start: nat, n: nat, t: int): (r: seq<ErrorState>)
    requires n <= |log|
    ensures |r| == |ErrorsAt(log, start, n)|
  {
    if n == 0 then []
    else
      var s := RebuiltErrors(log, start, n - 1, t);
      if Local(log, start, n - 1) && log[n - 1].RuntimeError? && log[n - 1].topLevel
      then s + [ErrorState(n - 1, ActiveAt(log, start, n - 1), RerunTime(log, start, n - 1, t))]
      else s
  }

  // ---------------------------------------------------------------- when the errors return

  /** Removing instruction `i` adds no error again. */
  predicate ErrorsStayAt(log: Log, i: nat)
    requires i < |log|
  {
    var s := Stack(log, i);
    log[i].IsInstruction() && s != [] && Previous(log, s[|s| - 1], i).Some? ==>
      ErrorsSince(log, s[|s| - 1], i) == []
  }

  predicate ErrorsStay(log: Log) {
    forall i | 0 <= i < |log| :: ErrorsStayAt(log, i)
  }

  /** Call `c` of the invocation returned before event `n`, without a new thread time of the invocation since. */
  predicate ReturnedAt(log: Log, start: nat, c: nat, n: nat)
    requires n <= |log|
  {
    && start < c < n && log[c].FunctionEnd? && Local(log, start, c + 1)
    && forall q | c < q < n && Local(log, start, q) :: !log[q].NewThreadTime?
  }

  predicate AfterCall(log: Log, start: nat, n: nat)
    requires n <= |log|
  {
    exists c | start < c < n :: ReturnedAt(log, start, c, n)
  }

  /** If event `i` is the end of an invocation, running the invocation again gives its errors the right times. */
  predicate TimesReturnAt(log: Log, i: nat)
    requires i < |log|
  {
    log[i].FunctionEnd? ==>
      forall p | log[i].functionStart < p < i && ErrorOf(log, log[i].functionStart, p) ::
        AfterCall(log, log[i].functionStart, p)
  }

  predicate ErrorOf(log: Log, start: nat, p: nat)
    requires p < |log|
  {
    Local(log, start, p) && log[p].RuntimeError? && log[p].topLevel
  }

  predicate TimesReturn(log: Log) {
    forall i | 0 <= i < |log| :: TimesReturnAt(log, i)
  }

  /** No error is recorded between two instructions of an invocation, and in an invocation that returns, every error
      comes after a call, without a new thread time in between. */
  predicate ErrorsReturn(log: Log) {
    ErrorsStay(log) && TimesReturn(log)
  }

  // ---------------------------------------------------------------- the times of a re-run

  lemma AfterCallNext(log: Log, start: nat, n: nat)
    requires start < n < |log| && Local(log, start, n + 1)
    ensures log[n].FunctionEnd? ==> AfterCall(log, start, n + 1)
    ensures !log[n].FunctionEnd? ==>
              && Local(log, start, n)
              && (AfterCall(log, start, n + 1) <==> AfterCall(log, start, n) && !log[n].NewThreadTime?)
  {
    hide Local;
    if log[n].FunctionEnd? {
      assert ReturnedAt(log, start, n, n + 1);
    } else {
      StaysLocal(log, start, n);
      if AfterCall(log, start, n + 1) {
        var c :| start < c < n + 1 && ReturnedAt(log, start, c, n + 1);
        assert ReturnedAt(log, start, c, n);
      }
      if AfterCall(log, start, n) && !log[n].NewThreadTime? {
        var c :| start < c < n && ReturnedAt(log, start, c, n);
        assert ReturnedAt(log, start, c, n + 1);
      }
    }
  }

  lemma StaysLocal(log: Log, start: nat, n: nat)
    requires start < n < |log| && Local(log, start, n + 1) && !log[n].FunctionEnd?
    ensures Local(log, start, n) && !log[n].FunctionStart?
  {
  }

  /** The re-run has the time of forward replay after a call and up to the next new thread time, and nowhere else if
      it starts late. */
  lemma {:induction false} RerunTimes(log: Log, start: nat, n: nat, t: int)
    requires start < n <= |log| && Local(log, start, n)
    ensures AfterCall(log, start, n) ==> RerunTime(log, start, n, t) == ThreadTimeAt(log, n)
    ensures !AfterCall(log, start, n) ==>
              RerunTime(log, start, n, t) >= t || RerunTime(log, start, n, t) < ThreadTimeAt(log, n)
    decreases n
  {
    hide Local, AfterCall;
    if n > start + 1 {
      AfterCallNext(log, start, n - 1);
      if !log[n - 1].FunctionEnd? {
        StaysLocal(log, start, n - 1);
        RerunTimes(log, start, n - 1, t);
      }
    } else {
      NoCallYet(log, start);
    }
  }

  lemma NoCallYet(log: Log, start: nat)
    requires start < |log|
    ensures !AfterCall(log, start, start + 1)
  {
  }

  lemma {:induction false} RebuiltRight(log: Log, start: nat, n: nat, i: nat, t: int)
    requires n <= i < |log| && log[i].FunctionEnd? && log[i].functionStart == start && TimesReturnAt(log, i)
    ensures RebuiltErrors(log, start, n, t) == ErrorsAt(log, start, n)
    decreases n
  {
    hide Local, AfterCall, ActiveAt;
    if n > 0 {
      RebuiltRight(log, start, n - 1, i, t);
      if ErrorOf(log, start, n - 1) {
        LocalAfterStart(log, start, n - 1);
        RerunTimes(log, start, n - 1, t);
      }
    }
  }

  lemma LocalAfterStart(log: Log, start: nat, n: nat)
    requires n <= |log| && Local(log, start, n)
    ensures start < n
  {
  }

  /** The entry of one error, in both lists. */
  lemma {:induction false} EntryAt(log: Log, start: nat, p: nat, n: nat, t: int)
    requires p < n <= |log| && ErrorOf(log, start, p)
    ensures var k := |ErrorsAt(log, start, p)|;
            && k < |ErrorsAt(log, start, n)| == |RebuiltErrors(log, start, n, t)|
            && ErrorsAt(log, start, n)[k].threadTime == ThreadTimeAt(log, p)
            && RebuiltErrors(log, start, n, t)[k].threadTime == RerunTime(log, start, p, t)
    decreases n
  {
    hide Local, ActiveAt, RerunTime, ThreadTimeAt;
    if n > p + 1 {
      EntryAt(log, start, p, n - 1, t);
    }
  }

  /** An error that comes after no call has a different time when the re-run starts from a later one. */
  lemma RebuiltWrong(log: Log, start: nat, p: nat, n: nat, t: int)
    requires p < n <= |log| && ErrorOf(log, start, p) && !AfterCall(log, start, p) && ThreadTimeAt(log, p) < t
    ensures RebuiltErrors(log, start, n, t) != ErrorsAt(log, start, n)
  {
    hide AfterCall, RebuiltErrors, ErrorsAt, RerunTime, ThreadTimeAt;
    LocalAfterStart(log, start, p);
    RerunTimes(log, start, p, t);
    EntryAt(log, start, p, n, t);
  }
}
