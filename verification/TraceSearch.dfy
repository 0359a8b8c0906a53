/** The searches that rewinding makes over the log.
    They go backward within one invocation, skipping its child calls, and forward from the start of a child
    call to its end. */
module TraceSearch {
  import opened Common
  import opened FrameModel
  import opened TraceLog

  // ---------------------------------------------------------------- nesting

  /** While a function is open, everything is done on top of it. */
  lemma {:induction false} ChildStacks(functions: seq<Function>, log: Log, e: nat, i: nat)
    requires Linked(functions, log) && e < |log| && log[e].FunctionEnd? && log[e].functionStart < i <= e
    ensures Stack(log, e) <= Stack(log, i)
    decreases e - i
  {
    if i < e {
      ChildStacks(functions, log, e, i + 1);
      assert LinkedAt(functions, log, e);
      var stack, next := Stack(log, e), Stack(log, i + 1);
      assert stack[|stack| - 1] == next[|stack| - 1] < i;
    }
  }

  ghost predicate Increasing(s: seq<nat>) {
    forall i, j | 0 <= i < j < |s| :: s[i] < s[j]
  }

  lemma SamePrefix(s: seq<nat>, t: seq<nat>)
    requires Increasing(t) && s <= t && s != [] && s[|s| - 1] == t[|t| - 1]
    ensures s == t
  {
  }

  /** The end of a function finds the stack as its start left it. */
  lemma EndStack(functions: seq<Function>, log: Log, e: nat)
    requires Linked(functions, log) && e < |log| && log[e].FunctionEnd?
    ensures log[e].functionStart < e && log[log[e].functionStart].FunctionStart?
    ensures log[log[e].functionStart].endAt == Some(e)
    ensures Stack(log, e) == Stack(log, log[e].functionStart) + [log[e].functionStart]
    ensures Stack(log, e + 1) == Stack(log, log[e].functionStart)
  {
    assert LinkedAt(functions, log, e);
    var s := log[e].functionStart;
    ChildStacks(functions, log, e, s + 1);
    SamePrefix(Stack(log, e), Stack(log, s + 1));
  }

  lemma InnerNotLocal(functions: seq<Function>, log: Log, start: nat, e: nat, i: nat)
    requires Linked(functions, log) && e < |log| && log[e].FunctionEnd? && Local(log, start, e + 1)
    requires log[e].functionStart < i <= e
    ensures start < log[e].functionStart && !Local(log, start, i)
  {
    EndStack(functions, log, e);
    ChildStacks(functions, log, e, i);
    var s, t := Stack(log, e), Stack(log, i);
    assert t[|s| - 1] == log[e].functionStart && t[|s| - 2] == start;
  }

  /** A child call between two events of an invocation is closed, and none of its events are local. */
  lemma ChildEnd(functions: seq<Function>, log: Log, start: nat, e: nat)
    requires Linked(functions, log) && e < |log| && log[e].FunctionEnd? && Local(log, start, e + 1)
    ensures start < log[e].functionStart < e && Local(log, start, log[e].functionStart)
    ensures log[log[e].functionStart].FunctionStart?
    ensures forall i | log[e].functionStart < i <= e :: !Local(log, start, i)
  {
    EndStack(functions, log, e);
    forall i | log[e].functionStart < i <= e ensures !Local(log, start, i) {
      InnerNotLocal(functions, log, start, e, i);
    }
    InnerNotLocal(functions, log, start, e, e);
  }

  /** Some event pops what is on the stack at one point and not at a later one. */
  lemma {:induction false} FindPop(log: Log, c: nat, i: nat, n: nat) returns (e: nat)
    requires i <= n <= |log| && c in Stack(log, i) && c !in Stack(log, n)
    ensures i <= e < n && c in Stack(log, e) && c !in Stack(log, e + 1)
    decreases n - i
  {
    if c in Stack(log, i + 1) {
      e := FindPop(log, c, i + 1, n);
    } else {
      e := i;
    }
  }

  lemma Popped(functions: seq<Function>, log: Log, c: nat, e: nat)
    requires Linked(functions, log) && e < |log| && c in Stack(log, e) && c !in Stack(log, e + 1)
    ensures log[e].FunctionEnd? && log[e].functionStart == c
  {
    assert LinkedAt(functions, log, e);
  }

  lemma LinkedRefers(functions: seq<Function>, log: Log)
    requires Linked(functions, log)
    ensures RestoresRefer(log)
  {
  }

  lemma LocalIsAfter(log: Log, start: nat, n: nat)
    requires n <= |log| && Local(log, start, n)
    ensures start < n
  {
  }

  lemma NotAbove(log: Log, start: nat, c: nat, n: nat)
    requires n <= |log| && Local(log, start, n) && start < c
    ensures c !in Stack(log, n)
  {
  }

  /** Going forward, a child call that is over before `n` is followed to its end. */
  lemma ChildStart(functions: seq<Function>, log: Log, start: nat, c: nat, n: nat)
    requires Linked(functions, log) && c < n <= |log| && log[c].FunctionStart?
    requires Local(log, start, c) && Local(log, start, n)
    ensures log[c].endAt.Some?
    ensures var e := log[c].endAt.value;
            c < e < n && log[e].FunctionEnd? && log[e].functionStart == c && Local(log, start, e + 1)
  {
    NotAbove(log, start, c, n);
    var s := Stack(log, c + 1);
    assert s[|s| - 1] == c;
    var e := FindPop(log, c, c + 1, n);
    Popped(functions, log, c, e);
    EndStack(functions, log, e);
  }

  // ---------------------------------------------------------------- the search

  predicate InFunction(e: Event) {
    !e.FunctionStart? && !e.FunctionEnd?
  }

  predicate AnInstruction(e: Event) { e.IsInstruction() }

  predicate ARestore(e: Event) { e.StackRestore? }

  /** No event of the invocation from `low` up to `high` satisfies `p`. */
  ghost predicate Misses(log: Log, start: nat, low: nat, high: nat, p: Event -> bool)
    requires high <= |log|
  {
    forall j | low <= j < high && Local(log, start, j) && InFunction(log[j]) :: !p(log[j])
  }

  lemma MissesChild(functions: seq<Function>, log: Log, start: nat, e: nat, high: nat, p: Event -> bool)
    requires Linked(functions, log) && e < high <= |log| && log[e].FunctionEnd? && Local(log, start, e + 1)
    requires Misses(log, start, e + 1, high, p)
    ensures log[e].functionStart < e && Local(log, start, log[e].functionStart)
    ensures Misses(log, start, log[e].functionStart, high, p)
  {
    hide Linked, LinkedAt, Stack, Local;
    ChildEnd(functions, log, start, e);
  }

  lemma MissesStart(log: Log, start: nat, high: nat, p: Event -> bool)
    requires start < high <= |log| && log[start].FunctionStart? && Misses(log, start, start + 1, high, p)
    ensures Misses(log, start, 0, high, p)
  {
  }

  lemma LocalStep(log: Log, start: nat, i: nat)
    requires i < |log| && Local(log, start, i + 1)
    ensures log[i].FunctionStart? ==> i == start
    ensures InFunction(log[i]) ==> Local(log, start, i)
  {
  }

  /** The last event before `priorTo`, of the invocation that started at `start`, that satisfies `p`. */
  method RFindInFunction(ghost functions: seq<Function>, log: Log, ghost start: nat, priorTo: nat, p: Event -> bool)
    returns (r: Option<nat>)
    requires Linked(functions, log) && priorTo <= |log| && Local(log, start, priorTo)
    ensures r.Some? ==> r.value < priorTo && Local(log, start, r.value) && InFunction(log[r.value]) && p(log[r.value])
    ensures Misses(log, start, if r.Some? then r.value + 1 else 0, priorTo, p)
  {
    hide Linked, LinkedAt, Stack, Local;
    var n := priorTo;
    while n > 0
      invariant 0 <= n <= priorTo && Local(log, start, n)
      invariant Misses(log, start, n, priorTo, p)
    {
      var it := n - 1;
      LocalStep(log, start, it);
      if log[it].FunctionStart? {
        MissesStart(log, start, priorTo, p);
        return None;
      } else if log[it].FunctionEnd? {
        MissesChild(functions, log, start, it, priorTo, p);
        n := log[it].functionStart;
      } else if p(log[it]) {
        return Some(it);
      } else {
        n := it;
      }
    }
    r := None;
  }

  /** The last event before `priorTo` that has a process time. */
  method RFindProcessTime(log: Log, priorTo: nat) returns (view: nat)
    requires priorTo <= |log|
    ensures view == ViewAt(log, priorTo)
  {
    var n := priorTo;
    while n > 0
      invariant 0 <= n <= priorTo && ViewAt(log, n) == ViewAt(log, priorTo)
    {
      if log[n - 1].ProcessTime().Some? {
        return log[n - 1].ProcessTime().value;
      }
      n := n - 1;
    }
    view := 0;
  }

  /** The last pointer-valued instruction before event `n`. */
  method RFindInstructionWithPtr(log: Log, n: nat) returns (r: Option<nat>)
    requires n <= |log|
    ensures r == LastPtr(log, n)
  {
    var i := n;
    while i > 0
      invariant 0 <= i <= n && LastPtr(log, i) == LastPtr(log, n)
    {
      if log[i - 1].InstructionWithValue? && log[i - 1].value.Ptr? {
        return Some(i - 1);
      }
      i := i - 1;
    }
    r := None;
  }
}
