/** The trace file: blocks that threads allocate and fill with their events, and the walk that finds them. */
module TraceFile {
  import opened Common

  // The values of BlockType, the magic at the start of a file, and the sizes in bytes.
  const MODULE_BITCODE: Byte := 1
  const PROCESS_TRACE: Byte := 2
  const PROCESS_DATA: Byte := 3
  const THREAD_EVENTS: Byte := 4
  const MAGIC: seq<Byte> := [83, 69, 69, 67, 83, 69, 69, 67]
  const HEADER_SIZE := 9
  const THREAD_BLOCK_SIZE := 4096

  // ---------------------------------------------------------------- numbers as bytes

  /** `n` in `k` bytes, the least significant first. */
  function Little(n: nat, k: nat): (r: seq<Byte>)
    ensures |r| == k
  {
    if k == 0 then [] else [n % 256] + Little(n / 256, k - 1)
  }

  function Limit(k: nat): nat {
    if k == 0 then 1 else 256 * Limit(k - 1)
  }

  lemma {:induction false} LittleRoundTrip(n: nat, k: nat)
    requires n < Limit(k)
    ensures FromLittle(Little(n, k)) == n
  {
    if k > 0 {
      LittleRoundTrip(n / 256, k - 1);
      assert Little(n, k)[1..] == Little(n / 256, k - 1);
    }
  }

  // ---------------------------------------------------------------- blocks and their bytes

  /** `size` is the whole size that was allocated, with the header. */
  datatype Block = Block(kind: Byte, thread: nat, items: seq<seq<Byte>>, size: nat)
  {
    function Content(): seq<Byte> {
      (if kind == THREAD_EVENTS then Little(thread, 4) else []) + Concat(items)
    }

    predicate Valid() {
      HEADER_SIZE + |Content()| <= size
    }

    /** The block as it lies in the file from `start` on: type, position of the next block, contents. */
    function Render(start: nat): (r: seq<Byte>)
      requires Valid()
      ensures |r| == size
    {
      [kind] + Little(start + size, 8) + Content() + Fill(size - HEADER_SIZE - |Content()|, 0)
    }
  }

  function Concat(items: seq<seq<Byte>>): seq<Byte> {
    if items == [] then [] else Concat(items[..|items| - 1]) + items[|items| - 1]
  }

  ghost predicate ValidBlocks(blocks: seq<Block>) {
    forall i | 0 <= i < |blocks| :: blocks[i].Valid()
  }

  function Size(blocks: seq<Block>): nat {
    if blocks == [] then 0 else Size(blocks[..|blocks| - 1]) + blocks[|blocks| - 1].size
  }

  /** The bytes of a file. */
  function File(blocks: seq<Block>): (r: seq<Byte>)
    requires ValidBlocks(blocks)
    ensures |r| == |MAGIC| + Size(blocks)
  {
    if blocks == [] then MAGIC
    else
      var before := File(blocks[..|blocks| - 1]);
      before + blocks[|blocks| - 1].Render(|before|)
  }

  // ---------------------------------------------------------------- one block, written by several threads

  /** A writer checks that the block has room, takes its range by an atomic addition to the offset of the
      block, and then either writes or finds that its range goes beyond the end. */
  datatype Writer = Ready | Checked | Accepted(at: nat) | Refused

  datatype Shared = Shared(offset: nat, end: nat, lengths: seq<nat>, writers: seq<Writer>)

  datatype WriterStep = Check(w: nat) | Take(w: nat)

  predicate CanWrite(s: Shared, a: WriterStep) {
    && |s.writers| == |s.lengths| && a.w < |s.writers|
    && if a.Check? then s.writers[a.w].Ready? else s.writers[a.w].Checked?
  }

  function WriteStep(s: Shared, a: WriterStep): Shared
    requires CanWrite(s, a)
  {
    match a
    case Check(w) => s.(writers := s.writers[w := if s.offset < s.end then Checked else Refused])
    case Take(w) =>
      var n := s.lengths[w];
      s.(offset := s.offset + n,
         writers := s.writers[w := if n <= s.end - s.offset then Accepted(s.offset) else Refused])
  }

  predicate CanWriteAll(s: Shared, steps: seq<WriterStep>)
    decreases steps
  {
    steps == [] || (CanWrite(s, steps[0]) && CanWriteAll(WriteStep(s, steps[0]), steps[1..]))
  }

  function WriteAll(s: Shared, steps: seq<WriterStep>): Shared
    requires CanWriteAll(s, steps)
    decreases steps
  {
    if steps == [] then s else WriteAll(WriteStep(s, steps[0]), steps[1..])
  }

  /** Accepted writes lie inside the block and apart from each other, and a block that has refused is full. */
  ghost predicate Apart(s: Shared, start: nat) {
    && |s.writers| == |s.lengths| && start <= s.offset
    && (forall w | 0 <= w < |s.writers| && s.writers[w].Accepted? ::
          start <= s.writers[w].at && s.writers[w].at + s.lengths[w] <= s.offset &&
          s.writers[w].at + s.lengths[w] <= s.end)
    && (forall v, w | 0 <= v < |s.writers| && 0 <= w < |s.writers| && v != w &&
          s.writers[v].Accepted? && s.writers[w].Accepted? ::
          s.writers[v].at + s.lengths[v] <= s.writers[w].at || s.writers[w].at + s.lengths[w] <= s.writers[v].at)
    && (forall w | 0 <= w < |s.writers| && s.writers[w].Refused? :: s.end <= s.offset)
  }

  lemma StepApart(s: Shared, start: nat, a: WriterStep)
    requires Apart(s, start) && CanWrite(s, a)
    ensures Apart(WriteStep(s, a), start)
  {
  }

  lemma {:induction false} StaysApart(s: Shared, start: nat, steps: seq<WriterStep>)
    requires Apart(s, start) && CanWriteAll(s, steps)
    ensures Apart(WriteAll(s, steps), start)
    decreases steps
  {
    hide WriteStep, Apart, CanWrite;
    if steps != [] {
      StepApart(s, start, steps[0]);
      StaysApart(WriteStep(s, steps[0]), start, steps[1..]);
    }
  }

  /** Whatever the interleaving of those who write to a new block, successful writes stay inside the block and
      apart from each other. */
  lemma WritesApart(start: nat, end: nat, lengths: seq<nat>, steps: seq<WriterStep>)
    requires CanWriteAll(Shared(start, end, lengths, seq(|lengths|, _ => Ready)), steps)
    ensures Apart(WriteAll(Shared(start, end, lengths, seq(|lengths|, _ => Ready)), steps), start)
  {
    StaysApart(Shared(start, end, lengths, seq(|lengths|, _ => Ready)), start, steps);
  }

  /** Once a write has been refused the block accepts nothing more, then or ever, but empty writes at its very
      end. */
  lemma {:induction false} NothingAfterRefusal(s: Shared, start: nat, w: nat, v: nat, steps: seq<WriterStep>)
    requires Apart(s, start) && w < |s.writers| && s.writers[w].Refused? && CanWriteAll(s, steps)
    requires v < |s.writers| && s.lengths[v] > 0
    ensures v < |WriteAll(s, steps).writers|
    ensures WriteAll(s, steps).writers[v].Accepted? ==> WriteAll(s, steps).writers[v] == s.writers[v]
    decreases steps
  {
    if steps != [] {
      StepApart(s, start, steps[0]);
      NothingAfterRefusal(WriteStep(s, steps[0]), start, w, v, steps[1..]);
    }
  }

  // ---------------------------------------------------------------- writing events

  /** The recorder's streams: for each thread with an open block, the position of that block. */
  datatype Recorder = Recorder(blocks: seq<Block>, current: map<nat, nat>)

  predicate HasRoom(b: Block, event: seq<Byte>) {
    HEADER_SIZE + |b.Content()| < b.size && HEADER_SIZE + |b.Content()| + |event| <= b.size
  }

  function NewThreadBlock(thread: nat): Block {
    Block(THREAD_EVENTS, thread, [], THREAD_BLOCK_SIZE)
  }

  function WithItem(b: Block, event: seq<Byte>): Block {
    b.(items := b.items + [event])
  }

  ghost predicate ValidRecorder(r: Recorder) {
    && ValidBlocks(r.blocks)
    && forall t | t in r.current ::
         && r.current[t] < |r.blocks|
         && r.blocks[r.current[t]].kind == THREAD_EVENTS && r.blocks[r.current[t]].thread == t
         && forall k | r.current[t] < k < |r.blocks| :: r.blocks[k].kind != THREAD_EVENTS || r.blocks[k].thread != t
  }

  /** Write an event of a thread: into its block, or into a new one when there is none or it is full. */
  function Append(r: Recorder, t: nat, event: seq<Byte>): Recorder
    requires ValidRecorder(r)
  {
    if t in r.current && HasRoom(r.blocks[r.current[t]], event) then
      r.(blocks := r.blocks[r.current[t] := WithItem(r.blocks[r.current[t]], event)])
    else
      Recorder(r.blocks + [WithItem(NewThreadBlock(t), event)], r.current[t := |r.blocks|])
  }

  /** A block of another type, of the exact size of its data. */
  function AppendOther(r: Recorder, kind: Byte, data: seq<Byte>): Recorder {
    r.(blocks := r.blocks + [Block(kind, 0, [data], HEADER_SIZE + |data|)])
  }

  /** The events that the blocks hold for a thread, in the order of the file. */
  function EventsOf(blocks: seq<Block>, t: nat): seq<seq<Byte>> {
    if blocks == [] then []
    else
      var last := blocks[|blocks| - 1];
      EventsOf(blocks[..|blocks| - 1], t) + (if last.kind == THREAD_EVENTS && last.thread == t then last.items else [])
  }

  lemma {:induction false} EventsOfUpdate(blocks: seq<Block>, i: nat, b: Block, t: nat, event: seq<Byte>)
    requires i < |blocks| && b == WithItem(blocks[i], event)
    requires b.kind == THREAD_EVENTS
    requires forall k | i < k < |blocks| :: blocks[k].kind != THREAD_EVENTS || blocks[k].thread != b.thread
    ensures EventsOf(blocks[i := b], t) == EventsOf(blocks, t) + (if t == b.thread then [event] else [])
  {
    var n := |blocks| - 1;
    if i < n {
      EventsOfUpdate(blocks[..n], i, b, t, event);
      assert blocks[i := b][..n] == blocks[..n][i := b];
    } else {
      assert blocks[i := b][..n] == blocks[..n];
    }
  }

  lemma ConcatMore(items: seq<seq<Byte>>, event: seq<Byte>)
    ensures Concat(items + [event]) == Concat(items) + event
  {
    assert (items + [event])[..|items|] == items;
  }

  lemma WithItemContent(b: Block, event: seq<Byte>)
    ensures WithItem(b, event).Content() == b.Content() + event
  {
    ConcatMore(b.items, event);
  }

  lemma AppendStaysValid(r: Recorder, t: nat, event: seq<Byte>)
    requires ValidRecorder(r) && |event| <= THREAD_BLOCK_SIZE - HEADER_SIZE - 4
    ensures ValidRecorder(Append(r, t, event))
  {
    hide Block.Content;
    if t in r.current {
      WithItemContent(r.blocks[r.current[t]], event);
    }
    NewBlockFits(t, event);
  }

  lemma NewBlockFits(t: nat, event: seq<Byte>)
    requires |event| <= THREAD_BLOCK_SIZE - HEADER_SIZE - 4
    ensures WithItem(NewThreadBlock(t), event).Valid()
  {
    WithItemContent(NewThreadBlock(t), event);
  }

  /** Appending adds the event to those of its thread and leaves the other threads' alone. */
  lemma AppendAdds(r: Recorder, t: nat, event: seq<Byte>, u: nat)
    requires ValidRecorder(r)
    ensures EventsOf(Append(r, t, event).blocks, u) == EventsOf(r.blocks, u) + if u == t then [event] else []
  {
    hide Block.Content, HasRoom, ValidBlocks;
    if t in r.current && HasRoom(r.blocks[r.current[t]], event) {
      var b := WithItem(r.blocks[r.current[t]], event);
      EventsOfUpdate(r.blocks, r.current[t], b, u, event);
    } else {
      EventsOfMore(r.blocks, WithItem(NewThreadBlock(t), event), u);
      assert [] + [event] == [event];
    }
  }

  lemma EventsOfMore(blocks: seq<Block>, b: Block, t: nat)
    ensures EventsOf(blocks + [b], t) ==
            EventsOf(blocks, t) + if b.kind == THREAD_EVENTS && b.thread == t then b.items else []
  {
    assert (blocks + [b])[..|blocks|] == blocks;
  }

  lemma AppendOtherKeeps(r: Recorder, kind: Byte, data: seq<Byte>, u: nat)
    requires ValidRecorder(r) && kind != THREAD_EVENTS
    ensures ValidRecorder(AppendOther(r, kind, data))
    ensures EventsOf(AppendOther(r, kind, data).blocks, u) == EventsOf(r.blocks, u)
  {
    assert AppendOther(r, kind, data).blocks[..|r.blocks|] == r.blocks;
    assert Concat([data]) == data by {
      ConcatMore([], data);
      assert [] + [data] == [data];
    }
  }

  // ---------------------------------------------------------------- reading blocks

  datatype RawBlock = RawBlock(kind: Byte, data: seq<Byte>)

  /** Follow the blocks from `start`. Where the source would read outside its buffer, or go round in
      circles, there is no result. */
  function Walk(file: seq<Byte>, start: nat): Option<seq<RawBlock>>
    decreases |file| - start
  {
    if start >= |file| - HEADER_SIZE then Some([])
    else
      var next := FromLittle(file[start + 1..start + HEADER_SIZE]);
      if next < start + HEADER_SIZE || next > |file| then None
      else
        match Walk(file, next)
        case None => None
        case Some(rest) => Some([RawBlock(file[start], file[start + HEADER_SIZE..next])] + rest)
  }

  /** Where block `i` starts. */
  function StartOf(blocks: seq<Block>, i: nat): nat
    requires i <= |blocks|
  {
    |MAGIC| + Size(blocks[..i])
  }

  function RawOf(b: Block): RawBlock
    requires b.Valid()
  {
    RawBlock(b.kind, b.Content() + Fill(b.size - HEADER_SIZE - |b.Content()|, 0))
  }

  function RawFrom(blocks: seq<Block>, i: nat): (r: seq<RawBlock>)
    requires ValidBlocks(blocks) && i <= |blocks|
    ensures |r| == |blocks| - i
    decreases |blocks| - i
  {
    if i == |blocks| then [] else [RawOf(blocks[i])] + RawFrom(blocks, i + 1)
  }

  lemma {:induction false} BlockInFile(blocks: seq<Block>, i: nat)
    requires ValidBlocks(blocks) && i < |blocks|
    ensures StartOf(blocks, i + 1) == StartOf(blocks, i) + blocks[i].size <= |File(blocks)|
    ensures File(blocks)[StartOf(blocks, i)..StartOf(blocks, i + 1)] == blocks[i].Render(StartOf(blocks, i))
    decreases |blocks|
  {
    hide Block.Render, Block.Content, Little;
    var n := |blocks| - 1;
    assert blocks[..i + 1][..i] == blocks[..i];
    if i < n {
      BlockInFile(blocks[..n], i);
      assert blocks[..n][..i] == blocks[..i] && blocks[..n][..i + 1] == blocks[..i + 1];
    } else {
      assert blocks[..n + 1] == blocks;
    }
  }

  /** The header and the data of a block, read back. */
  lemma RenderParts(b: Block, start: nat)
    requires b.Valid() && start + b.size < Limit(8)
    ensures var r := b.Render(start);
            && FromLittle(r[1..HEADER_SIZE]) == start + b.size
            && RawOf(b) == RawBlock(r[0], r[HEADER_SIZE..])
  {
    var r := b.Render(start);
    LittleRoundTrip(start + b.size, 8);
    assert r[1..HEADER_SIZE] == Little(start + b.size, 8);
  }

  lemma FileSize(blocks: seq<Block>)
    requires ValidBlocks(blocks)
    ensures |File(blocks)| == |MAGIC| + Size(blocks)
  {
  }

  lemma SliceOf(s: seq<Byte>, a: nat, b: nat, i: nat, j: nat)
    requires a < b <= |s| && i <= j <= b - a
    ensures s[a..b][i..j] == s[a + i..a + j] && s[a..b][0] == s[a]
    ensures j == b - a ==> s[a..b][i..] == s[a + i..b]
  {
    forall k | i <= k < j ensures s[a..b][k] == s[a + k] {
    }
  }

  /** The type of a block, the position of the next one, and the contents, read from the file. */
  lemma BlockRead(blocks: seq<Block>, i: nat)
    requires ValidBlocks(blocks) && i < |blocks| && |MAGIC| + Size(blocks) < Limit(8)
    ensures var file, start, next := File(blocks), StartOf(blocks, i), StartOf(blocks, i + 1);
            && start + HEADER_SIZE <= next <= |file|
            && FromLittle(file[start + 1..start + HEADER_SIZE]) == next
            && RawOf(blocks[i]) == RawBlock(file[start], file[start + HEADER_SIZE..next])
  {
    hide File, RawOf, Limit, FromLittle, Block.Render, Block.Content;
    var file, start, next := File(blocks), StartOf(blocks, i), StartOf(blocks, i + 1);
    FileSize(blocks);
    BlockInFile(blocks, i);
    RenderParts(blocks[i], start);
    assert file[start..next] == blocks[i].Render(start);
    SliceOf(file, start, next, 1, HEADER_SIZE);
    SliceOf(file, start, next, HEADER_SIZE, next - start);
  }

  /** The number of blocks that the walk sees: a last block that is nothing but a header is not seen. */
  function Seen(blocks: seq<Block>): (n: nat)
    ensures n <= |blocks| <= n + 1
  {
    if blocks != [] && blocks[|blocks| - 1].size <= HEADER_SIZE then |blocks| - 1 else |blocks|
  }

  /** The walk finds exactly the blocks that were written, but for a last block that is nothing but a header. */
  lemma {:induction false} WalkFinds(blocks: seq<Block>, i: nat)
    requires ValidBlocks(blocks) && i <= Seen(blocks) && |MAGIC| + Size(blocks) < Limit(8)
    ensures Walk(File(blocks), StartOf(blocks, i)) == Some(RawFrom(blocks, i)[..Seen(blocks) - i])
    decreases |blocks| - i
  {
    hide File, RawOf, Limit, FromLittle, Block.Render, Block.Content;
    FileSize(blocks);
    if i == Seen(blocks) {
      LastIsSeen(blocks);
    } else {
      BlockRead(blocks, i);
      SeenIsLonger(blocks, i);
      WalkFinds(blocks, i + 1);
      FirstTaken(RawOf(blocks[i]), RawFrom(blocks, i + 1), Seen(blocks) - i - 1);
    }
  }

  lemma LastIsSeen(blocks: seq<Block>)
    requires ValidBlocks(blocks)
    ensures StartOf(blocks, Seen(blocks)) + HEADER_SIZE >= |MAGIC| + Size(blocks)
  {
    assert blocks[..|blocks|] == blocks;
  }

  lemma SeenIsLonger(blocks: seq<Block>, i: nat)
    requires ValidBlocks(blocks) && i < Seen(blocks)
    ensures StartOf(blocks, i) + HEADER_SIZE < |MAGIC| + Size(blocks)
  {
    var n := |blocks| - 1;
    if i < n {
      SizeGrows(blocks, i + 1, n);
      assert blocks[..i + 1][..i] == blocks[..i];
    } else {
      assert blocks[..i] == blocks[..n];
    }
  }

  lemma FirstTaken<T>(x: T, rest: seq<T>, n: nat)
    requires n <= |rest|
    ensures ([x] + rest)[..n + 1] == [x] + rest[..n]
  {
  }

  lemma {:induction false} SizeGrows(blocks: seq<Block>, i: nat, n: nat)
    requires i <= n <= |blocks|
    ensures Size(blocks[..i]) <= Size(blocks[..n])
    decreases n
  {
    if i < n {
      SizeGrows(blocks, i, n - 1);
      assert blocks[..n][..n - 1] == blocks[..n - 1];
    }
  }

  // ---------------------------------------------------------------- reading events

  /** The size of an event, by its type. Types other than zero have events of at least the type and the size
      of the previous event, and of a size that fits in one byte. */
  type Sizes = Byte -> nat

  ghost predicate ValidSizes(sizes: Sizes) {
    forall b: Byte | b != 0 :: 2 <= sizes(b) <= 255
  }

  ghost predicate IsEvent(sizes: Sizes, event: seq<Byte>) {
    event != [] && event[0] != 0 && |event| == sizes(event[0])
  }

  /** The events from `at` on: another follows while there is room for the start of one and its type is not
      zero. */
  function Events(sizes: Sizes, data: seq<Byte>, at: nat): seq<seq<Byte>>
    requires forall b: Byte | b != 0 :: 2 <= sizes(b)
    decreases |data| - at
  {
    if at >= |data| || data[at] == 0 || at + sizes(data[at]) > |data| then []
    else
      var next := at + sizes(data[at]);
      [data[at..next]] + if next <= |data| - 2 && data[next] != 0 then Events(sizes, data, next) else []
  }

  lemma {:induction false} ConcatFirst(items: seq<seq<Byte>>)
    requires items != []
    ensures Concat(items) == items[0] + Concat(items[1..])
    decreases |items|
  {
    var n := |items| - 1;
    if n > 0 {
      ConcatFirst(items[..n]);
      assert items[1..][..n - 1] == items[..n][1..];
    } else {
      assert items[..0] == [] && items[1..] == [];
    }
  }

  lemma EventsStep(sizes: Sizes, data: seq<Byte>, at: nat, first: seq<Byte>)
    requires ValidSizes(sizes) && IsEvent(sizes, first)
    requires at + |first| <= |data| && data[at..at + |first|] == first
    ensures var next := at + |first|;
            Events(sizes, data, at) ==
            [first] + if next <= |data| - 2 && data[next] != 0 then Events(sizes, data, next) else []
  {
    assert data[at] == first[0];
  }

  lemma {:induction false} ConcatHolds(sizes: Sizes, items: seq<seq<Byte>>)
    requires ValidSizes(sizes) && items != [] && IsEvent(sizes, items[0])
    ensures |Concat(items)| >= 2 && Concat(items)[0] == items[0][0] != 0
  {
    ConcatFirst(items);
  }

  /** Exactly the events of the block are found: the zeros that follow them end the search. */
  lemma {:induction false} EventsFound(sizes: Sizes, data: seq<Byte>, at: nat, items: seq<seq<Byte>>)
    requires ValidSizes(sizes) && items != [] && forall i | 0 <= i < |items| :: IsEvent(sizes, items[i])
    requires at + |Concat(items)| <= |data| && data[at..at + |Concat(items)|] == Concat(items)
    requires forall k | at + |Concat(items)| <= k < |data| :: data[k] == 0
    ensures Events(sizes, data, at) == items
    decreases |items|
  {
    hide Events, ValidSizes, IsEvent, Concat;
    ConcatFirst(items);
    var first, rest := items[0], Concat(items[1..]);
    var next := at + |first|;
    Halves(data, at, first, rest);
    EventsStep(sizes, data, at, first);
    if |items| > 1 {
      ConcatHolds(sizes, items[1..]);
      assert data[next] == data[next..next + |rest|][0] == rest[0];
      EventsFound(sizes, data, next, items[1..]);
    } else {
      assert items[1..] == [] && items == [items[0]];
      NothingToConcat();
    }
  }

  lemma NothingToConcat()
    ensures Concat([]) == []
  {
  }

  lemma Halves(data: seq<Byte>, at: nat, first: seq<Byte>, rest: seq<Byte>)
    requires at + |first + rest| <= |data| && data[at..at + |first + rest|] == first + rest
    ensures data[at..at + |first|] == first
    ensures data[at + |first|..at + |first| + |rest|] == rest
  {
    assert data[at..at + |first + rest|][..|first|] == first;
    assert data[at..at + |first + rest|][|first|..] == rest;
  }

  /** The events of one thread in the blocks of a file. */
  function ThreadEvents(sizes: Sizes, blocks: seq<RawBlock>, t: nat): seq<seq<Byte>>
    requires forall b: Byte | b != 0 :: 2 <= sizes(b)
  {
    if blocks == [] then []
    else
      var b := blocks[0];
      (if b.kind == THREAD_EVENTS && |b.data| >= 4 && FromLittle(b.data[..4]) == t
       then Events(sizes, b.data, 4) else []) +
      ThreadEvents(sizes, blocks[1..], t)
  }

  /** Each block of events holds at least one, and all are well formed. */
  ghost predicate HoldsEvents(sizes: Sizes, b: Block) {
    b.Valid() &&
    (b.kind == THREAD_EVENTS ==>
       b.thread < Limit(4) && b.items != [] && forall i | 0 <= i < |b.items| :: IsEvent(sizes, b.items[i]))
  }

  lemma BlockEvents(sizes: Sizes, b: Block, t: nat)
    requires ValidSizes(sizes) && HoldsEvents(sizes, b)
    ensures b.Valid()
    ensures ThreadEvents(sizes, [RawOf(b)], t) == if b.kind == THREAD_EVENTS && b.thread == t then b.items else []
  {
    hide Events, Limit;
    var data := RawOf(b).data;
    assert [RawOf(b)][1..] == [];
    if b.kind == THREAD_EVENTS {
      assert data[..4] == Little(b.thread, 4);
      LittleRoundTrip(b.thread, 4);
      assert data[4..4 + |Concat(b.items)|] == Concat(b.items);
      EventsFound(sizes, data, 4, b.items);
    }
  }

  /** The events of the blocks from `i` on. */
  function EventsFrom(blocks: seq<Block>, i: nat, t: nat): seq<seq<Byte>>
    requires i <= |blocks|
    decreases |blocks| - i
  {
    if i == |blocks| then []
    else (if blocks[i].kind == THREAD_EVENTS && blocks[i].thread == t then blocks[i].items else []) +
         EventsFrom(blocks, i + 1, t)
  }

  lemma {:induction false} EventsFromAll(blocks: seq<Block>, i: nat, t: nat)
    requires i <= |blocks|
    ensures EventsOf(blocks, t) == EventsOf(blocks[..i], t) + EventsFrom(blocks, i, t)
    decreases |blocks| - i
  {
    hide EventsOf;
    if i == |blocks| {
      assert blocks[..i] == blocks;
    } else {
      EventsFromAll(blocks, i + 1, t);
      EventsOfMore(blocks[..i], blocks[i], t);
      assert blocks[..i + 1] == blocks[..i] + [blocks[i]];
      var here := if blocks[i].kind == THREAD_EVENTS && blocks[i].thread == t then blocks[i].items else [];
      Associate(EventsOf(blocks[..i], t), here, EventsFrom(blocks, i + 1, t));
    }
  }

  lemma Associate<T>(a: seq<T>, b: seq<T>, c: seq<T>)
    ensures (a + b) + c == a + (b + c)
  {
  }

  lemma ThreadEventsFirst(sizes: Sizes, b: RawBlock, rest: seq<RawBlock>, t: nat)
    requires forall c: Byte | c != 0 :: 2 <= sizes(c)
    ensures ThreadEvents(sizes, [b] + rest, t) == ThreadEvents(sizes, [b], t) + ThreadEvents(sizes, rest, t)
  {
    hide Events;
    assert ([b] + rest)[1..] == rest && [b][1..] == [];
    assert ThreadEvents(sizes, [], t) == [];
  }

  lemma NoBlocks(sizes: Sizes, t: nat)
    requires forall c: Byte | c != 0 :: 2 <= sizes(c)
    ensures ThreadEvents(sizes, [], t) == []
  {
  }

  lemma {:induction false} ThreadEventsFound(sizes: Sizes, blocks: seq<Block>, i: nat, t: nat)
    requires ValidSizes(sizes) && i <= |blocks| && ValidBlocks(blocks)
    requires forall k | 0 <= k < |blocks| :: HoldsEvents(sizes, blocks[k])
    ensures ThreadEvents(sizes, RawFrom(blocks, i), t) == EventsFrom(blocks, i, t)
    decreases |blocks| - i
  {
    hide HoldsEvents, RawOf, Events, ThreadEvents;
    if i < |blocks| {
      ThreadEventsFound(sizes, blocks, i + 1, t);
      BlockEvents(sizes, blocks[i], t);
      ThreadEventsFirst(sizes, RawOf(blocks[i]), RawFrom(blocks, i + 1), t);
    } else {
      NoBlocks(sizes, t);
    }
  }

  // ---------------------------------------------------------------- whole recordings

  datatype Operation = Event(thread: nat, event: seq<Byte>) | Other(kind: Byte, data: seq<Byte>)

  /** What the recorder can be asked to write. */
  ghost predicate WellFormed(sizes: Sizes, op: Operation) {
    match op
    case Event(t, event) => t < Limit(4) && IsEvent(sizes, event)
    case Other(kind, data) => kind != THREAD_EVENTS && data != []
  }

  ghost predicate AllWellFormed(sizes: Sizes, ops: seq<Operation>) {
    forall i | 0 <= i < |ops| :: WellFormed(sizes, ops[i])
  }

  ghost predicate Recorded(sizes: Sizes, r: Recorder) {
    && ValidRecorder(r)
    && (forall k | 0 <= k < |r.blocks| :: HoldsEvents(sizes, r.blocks[k]))
    && (r.blocks != [] ==> r.blocks[|r.blocks| - 1].size > HEADER_SIZE)
  }

  /** Any interleaving of the threads' writes, from an empty file. */
  ghost function Record(sizes: Sizes, ops: seq<Operation>): (r: Recorder)
    requires ValidSizes(sizes) && AllWellFormed(sizes, ops)
    ensures Recorded(sizes, r)
  {
    if ops == [] then Recorder([], map[])
    else
      var r, op := Record(sizes, ops[..|ops| - 1]), ops[|ops| - 1];
      RecordedMore(sizes, r, op);
      if op.Event? then Append(r, op.thread, op.event) else AppendOther(r, op.kind, op.data)
  }

  lemma RecordedMore(sizes: Sizes, r: Recorder, op: Operation)
    requires ValidSizes(sizes) && Recorded(sizes, r) && WellFormed(sizes, op)
    ensures op.Event? ==> Recorded(sizes, Append(r, op.thread, op.event))
    ensures op.Other? ==> Recorded(sizes, AppendOther(r, op.kind, op.data))
  {
    hide ValidRecorder, Limit, Block.Content;
    if op.Event? {
      AppendStaysValid(r, op.thread, op.event);
      AppendHolds(sizes, r, op.thread, op.event);
    } else {
      AppendOtherKeeps(r, op.kind, op.data, 0);
      OtherHolds(sizes, r, op.kind, op.data);
    }
  }

  lemma AppendHolds(sizes: Sizes, r: Recorder, t: nat, event: seq<Byte>)
    requires ValidSizes(sizes) && Recorded(sizes, r) && t < Limit(4) && IsEvent(sizes, event)
    requires ValidRecorder(Append(r, t, event))
    ensures Recorded(sizes, Append(r, t, event))
  {
    hide Limit, Block.Content;
    var w := Append(r, t, event);
    forall k | 0 <= k < |w.blocks| ensures HoldsEvents(sizes, w.blocks[k]) {
      assert k < |r.blocks| ==> HoldsEvents(sizes, r.blocks[k]);
    }
  }

  lemma OtherHolds(sizes: Sizes, r: Recorder, kind: Byte, data: seq<Byte>)
    requires Recorded(sizes, r) && kind != THREAD_EVENTS && data != []
    requires ValidRecorder(AppendOther(r, kind, data))
    ensures Recorded(sizes, AppendOther(r, kind, data))
  {
    hide Limit, Block.Content;
    var w := AppendOther(r, kind, data);
    forall k | 0 <= k < |w.blocks| ensures HoldsEvents(sizes, w.blocks[k]) {
      assert k < |r.blocks| ==> HoldsEvents(sizes, r.blocks[k]);
    }
  }

  /** The events that a thread wrote, in order. */
  function Written(ops: seq<Operation>, t: nat): seq<seq<Byte>> {
    if ops == [] then []
    else
      var op := ops[|ops| - 1];
      Written(ops[..|ops| - 1], t) + if op.Event? && op.thread == t then [op.event] else []
  }

  lemma {:induction false} RecordKeeps(sizes: Sizes, ops: seq<Operation>, t: nat)
    requires ValidSizes(sizes) && AllWellFormed(sizes, ops)
    ensures EventsOf(Record(sizes, ops).blocks, t) == Written(ops, t)
  {
    hide ValidRecorder, HoldsEvents, Append, AppendOther;
    if ops != [] {
      var r, op := Record(sizes, ops[..|ops| - 1]), ops[|ops| - 1];
      RecordKeeps(sizes, ops[..|ops| - 1], t);
      assert WellFormed(sizes, op);
      if op.Event? {
        AppendAdds(r, op.thread, op.event, t);
      } else {
        AppendOtherKeeps(r, op.kind, op.data, t);
      }
    }
  }

  /** Whatever the interleaving of the threads, reading the file back yields the events of each thread in
      the order in which it wrote them. */
  lemma RoundTrip(sizes: Sizes, ops: seq<Operation>, t: nat)
    requires ValidSizes(sizes) && AllWellFormed(sizes, ops)
    requires |MAGIC| + Size(Record(sizes, ops).blocks) < Limit(8)
    ensures var file := File(Record(sizes, ops).blocks);
            && MAGIC <= file
            && Walk(file, |MAGIC|).Some?
            && ThreadEvents(sizes, Walk(file, |MAGIC|).value, t) == Written(ops, t)
  {
    hide Walk, ThreadEvents, HoldsEvents, Limit, Written, Record;
    var blocks := Record(sizes, ops).blocks;
    RecordKeeps(sizes, ops, t);
    assert blocks[..0] == [];
    WalkFinds(blocks, 0);
    assert RawFrom(blocks, 0)[..Seen(blocks)] == RawFrom(blocks, 0);
    ThreadEventsFound(sizes, blocks, 0, t);
    EventsFromAll(blocks, 0, t);
    StartsWithMagic(blocks);
  }

  lemma {:induction false} StartsWithMagic(blocks: seq<Block>)
    requires ValidBlocks(blocks)
    ensures MAGIC <= File(blocks)
  {
    if blocks != [] {
      StartsWithMagic(blocks[..|blocks| - 1]);
    }
  }
}
