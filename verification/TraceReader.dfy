/** The reader's side of the trace file.
    These are the loops that follow the blocks of a file and, within a block, its events; what they find
    is proved against the functions of TraceFile. */
module TraceReader {
  import opened Common
  import opened TraceFile

  /** A trace as it was opened: the two blocks that must occur once, and the blocks of each thread. */
  datatype Trace = Trace(bitcode: Option<RawBlock>, process: Option<RawBlock>, threads: map<nat, seq<RawBlock>>)

  /** Unreadable: reading would leave the buffer, or never end. */
  datatype Opened = Open(trace: Trace) | MalformedFile | Unreadable

  /** What one more block does to the trace read so far. */
  function Classify(trace: Trace, b: RawBlock): Opened {
    if b.kind == MODULE_BITCODE then
      if trace.bitcode.Some? then MalformedFile else Open(trace.(bitcode := Some(b)))
    else if b.kind == PROCESS_TRACE then
      if trace.process.Some? then MalformedFile else Open(trace.(process := Some(b)))
    else if b.kind == PROCESS_DATA then Open(trace)
    else if b.kind == THREAD_EVENTS then
      if |b.data| < 4 || FromLittle(b.data[..4]) == 0 then Unreadable
      else
        var t := FromLittle(b.data[..4]);
        Open(trace.(threads := trace.threads[t := (if t in trace.threads then trace.threads[t] else []) + [b]]))
    else MalformedFile
  }

  const NO_TRACE := Trace(None, None, map[])

  /** Follow the blocks of a file, and sort them. */
  method CreateForFile(file: seq<Byte>) returns (r: Opened)
    ensures !(MAGIC <= file) ==> r == MalformedFile
    ensures r.Open? ==> MAGIC <= file && Walk(file, |MAGIC|).Some? && r.trace.bitcode.Some? && r.trace.process.Some?
    ensures r.Open? ==> Sorts(Walk(file, |MAGIC|).value, r.trace)
    ensures MAGIC <= file && r == MalformedFile ==>
              Walk(file, |MAGIC|) == None || Refused(Walk(file, |MAGIC|).value)
    ensures r == Unreadable ==>
              Walk(file, |MAGIC|) == None || exists b :: b in Walk(file, |MAGIC|).value && Unclaimed(b)
  {
    hide Sorts, Refused, Classify, FromLittle, Walk, Unclaimed, Continues;
    if !(MAGIC <= file) { return MalformedFile; }
    var trace := NO_TRACE;
    var start := |MAGIC|;
    ghost var done: seq<RawBlock> := [];
    NothingSorted(file);
    while start < |file| - HEADER_SIZE
      invariant |MAGIC| <= start <= |file| && Sorts(done, trace)
      invariant Continues(file, done, start)
      decreases |file| - start
    {
      var next := FromLittle(file[start + 1..start + HEADER_SIZE]);
      if next < start + HEADER_SIZE || next > |file| {
        WalkBreaks(file, done, start);
        return Unreadable;
      }
      var b := RawBlock(file[start], file[start + HEADER_SIZE..next]);
      WalkNext(file, done, start);
      var c := Classify(trace, b);
      if Walk(file, next).Some? {
        RefusedLater(done, b, Walk(file, next).value, trace);
      }
      if !c.Open? {
        OnlyUnclaimed(trace, b);
        assert Walk(file, |MAGIC|).Some? ==> b in Walk(file, |MAGIC|).value;
        return c;
      }
      SortsMore(done, trace, b);
      done := done + [b];
      trace, start := c.trace, next;
    }
    WalkStops(file, done, start, trace);
    if trace.bitcode.None? || trace.process.None? { return MalformedFile; }
    r := Open(trace);
  }

  /** A block of events that names no thread. */
  predicate Unclaimed(b: RawBlock) {
    b.kind == THREAD_EVENTS && (|b.data| < 4 || FromLittle(b.data[..4]) == 0)
  }

  lemma OnlyUnclaimed(trace: Trace, b: RawBlock)
    ensures Classify(trace, b) == Unreadable <==> Unclaimed(b)
  {
  }

  lemma WalkBreaks(file: seq<Byte>, done: seq<RawBlock>, start: nat)
    requires start < |file| - HEADER_SIZE && Continues(file, done, start)
    requires var next := FromLittle(file[start + 1..start + HEADER_SIZE]); next < start + HEADER_SIZE || next > |file|
    ensures Walk(file, |MAGIC|) == None
  {
    hide FromLittle;
  }

  /** The blocks from `start` on complete those already done. */
  ghost predicate Continues(file: seq<Byte>, done: seq<RawBlock>, start: nat) {
    match Walk(file, start)
    case Some(rest) => Walk(file, |MAGIC|) == Some(done + rest)
    case None => Walk(file, |MAGIC|) == None
  }

  lemma NothingSorted(file: seq<Byte>)
    ensures Sorts([], NO_TRACE) && Continues(file, [], |MAGIC|)
  {
    hide Walk;
    if Walk(file, |MAGIC|).Some? {
      assert [] + Walk(file, |MAGIC|).value == Walk(file, |MAGIC|).value;
    }
  }

  lemma WalkNext(file: seq<Byte>, done: seq<RawBlock>, start: nat)
    requires start < |file| - HEADER_SIZE && Continues(file, done, start)
    requires var next := FromLittle(file[start + 1..start + HEADER_SIZE]); start + HEADER_SIZE <= next <= |file|
    ensures var next := FromLittle(file[start + 1..start + HEADER_SIZE]);
            var b := RawBlock(file[start], file[start + HEADER_SIZE..next]);
            && Continues(file, done + [b], next)
            && (Walk(file, |MAGIC|).Some? <==> Walk(file, next).Some?)
            && (Walk(file, next).Some? ==> Walk(file, |MAGIC|) == Some(done + ([b] + Walk(file, next).value)))
  {
    hide FromLittle;
    var next := FromLittle(file[start + 1..start + HEADER_SIZE]);
    if Walk(file, next).Some? {
      var b, rest := RawBlock(file[start], file[start + HEADER_SIZE..next]), Walk(file, next).value;
      assert done + ([b] + rest) == (done + [b]) + rest;
    }
  }

  lemma WalkStops(file: seq<Byte>, done: seq<RawBlock>, start: nat, trace: Trace)
    requires start >= |file| - HEADER_SIZE && Continues(file, done, start) && Sorts(done, trace)
    ensures Walk(file, |MAGIC|) == Some(done)
    ensures trace.bitcode.None? || trace.process.None? ==> Refused(done)
  {
    hide FromLittle, OfKind, BlocksOf;
    assert done + [] == done;
  }

  function OfKind(raw: seq<RawBlock>, kind: Byte): nat {
    if raw == [] then 0 else OfKind(raw[..|raw| - 1], kind) + if raw[|raw| - 1].kind == kind then 1 else 0
  }

  predicate Known(kind: Byte) {
    kind == MODULE_BITCODE || kind == PROCESS_TRACE || kind == PROCESS_DATA || kind == THREAD_EVENTS
  }

  /** The blocks of one thread, in the order of the file. */
  function BlocksOf(raw: seq<RawBlock>, t: nat): seq<RawBlock> {
    if raw == [] then []
    else
      var b := raw[|raw| - 1];
      BlocksOf(raw[..|raw| - 1], t) +
      (if b.kind == THREAD_EVENTS && |b.data| >= 4 && FromLittle(b.data[..4]) == t then [b] else [])
  }

  /** The trace holds each block in its place, and none is missing. */
  ghost predicate Sorts(raw: seq<RawBlock>, trace: Trace) {
    && (forall t: nat :: BlocksOf(raw, t) == if t in trace.threads then trace.threads[t] else [])
    && OfKind(raw, MODULE_BITCODE) == (if trace.bitcode.Some? then 1 else 0)
    && OfKind(raw, PROCESS_TRACE) == (if trace.process.Some? then 1 else 0)
    && (trace.bitcode.Some? ==> trace.bitcode.value in raw && trace.bitcode.value.kind == MODULE_BITCODE)
    && (trace.process.Some? ==> trace.process.value in raw && trace.process.value.kind == PROCESS_TRACE)
    && (forall i | 0 <= i < |raw| :: Known(raw[i].kind))
  }

  /** A file is refused for an unknown block, or for not having exactly one of each of the two. */
  ghost predicate Refused(raw: seq<RawBlock>) {
    || (exists i :: 0 <= i < |raw| && !Known(raw[i].kind))
    || OfKind(raw, MODULE_BITCODE) != 1
    || OfKind(raw, PROCESS_TRACE) != 1
  }

  lemma BlocksMore(raw: seq<RawBlock>, trace: Trace, b: RawBlock, t: nat)
    requires BlocksOf(raw, t) == if t in trace.threads then trace.threads[t] else []
    requires Classify(trace, b).Open?
    ensures var more := Classify(trace, b).trace;
            BlocksOf(raw + [b], t) == if t in more.threads then more.threads[t] else []
  {
    hide FromLittle;
    assert (raw + [b])[..|raw|] == raw;
  }

  lemma SortsMore(raw: seq<RawBlock>, trace: Trace, b: RawBlock)
    requires Sorts(raw, trace) && Classify(trace, b).Open?
    ensures Sorts(raw + [b], Classify(trace, b).trace)
  {
    hide FromLittle, BlocksOf;
    assert (raw + [b])[..|raw|] == raw;
    assert (raw + [b])[|raw|] == b;
    var more := Classify(trace, b).trace;
    forall t: nat ensures BlocksOf(raw + [b], t) == if t in more.threads then more.threads[t] else [] {
      BlocksMore(raw, trace, b, t);
    }
  }

  lemma {:induction false} OfKindGrows(raw: seq<RawBlock>, rest: seq<RawBlock>, kind: Byte)
    ensures OfKind(raw, kind) <= OfKind(raw + rest, kind)
    decreases |rest|
  {
    if rest == [] {
      assert raw + rest == raw;
    } else {
      OfKindGrows(raw, rest[..|rest| - 1], kind);
      assert (raw + rest)[..|raw + rest| - 1] == raw + rest[..|rest| - 1];
    }
  }

  lemma RefusedLater(raw: seq<RawBlock>, b: RawBlock, rest: seq<RawBlock>, trace: Trace)
    requires Sorts(raw, trace)
    ensures Classify(trace, b) == MalformedFile ==> Refused(raw + ([b] + rest))
  {
    hide FromLittle;
    assert raw + ([b] + rest) == (raw + [b]) + rest;
    assert (raw + [b])[..|raw|] == raw;
    OfKindGrows(raw + [b], rest, MODULE_BITCODE);
    OfKindGrows(raw + [b], rest, PROCESS_TRACE);
    assert (raw + ([b] + rest))[|raw|] == b;
  }

  lemma EventsUnroll(sizes: Sizes, data: seq<Byte>, at: nat, before: seq<seq<Byte>>)
    requires forall b: Byte | b != 0 :: 2 <= sizes(b)
    ensures at >= |data| || data[at] == 0 || at + sizes(data[at]) > |data| ==>
              before + Events(sizes, data, at) == before
    ensures !(at >= |data| || data[at] == 0 || at + sizes(data[at]) > |data|) ==>
              var next := at + sizes(data[at]);
              before + Events(sizes, data, at) ==
              (before + [data[at..next]]) +
              if next <= |data| - 2 && data[next] != 0 then Events(sizes, data, next) else []
  {
  }

  /** The events of a block: each is followed by another while there is room and its type is not zero. */
  method ReadEvents(sizes: Sizes, data: seq<Byte>) returns (events: seq<seq<Byte>>)
    requires (forall b: Byte | b != 0 :: 2 <= sizes(b)) && |data| >= 4
    ensures events == Events(sizes, data, 4)
  {
    hide Events;
    events := [];
    var end := 4;
    while true
      invariant 4 <= end
      invariant events + Events(sizes, data, end) == Events(sizes, data, 4)
      decreases |data| - end
    {
      EventsUnroll(sizes, data, end, events);
      if end >= |data| || data[end] == 0 || end + sizes(data[end]) > |data| { return; }
      var next := end + sizes(data[end]);
      events := events + [data[end..next]];
      if !(next <= |data| - 2 && data[next] != 0) { return; }
      end := next;
    }
  }
}
