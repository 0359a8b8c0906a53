/** The writer's side of the trace file, as objects: a growing file, blocks that advance an offset as they are
    written, and the stream of one thread, which replaces its block when it is full. What they write is
    proved against TraceFile. */
module TraceStorage {
  import opened Common
  import opened TraceFile

  /** What writing at a position of a file does to it. */
  lemma SpliceParts(s: seq<Byte>, a: seq<Byte>, b: seq<Byte>, c: seq<Byte>, with: seq<Byte>)
    requires s == a + b + c && |b| == |with|
    ensures Splice(s, |a|, with) == a + with + c
  {
  }

  class OutputStreamAllocator {
    var file: seq<Byte>
    /** The blocks that the file holds. */
    ghost var blocks: seq<Block>

    ghost predicate Valid()
      reads this
    {
      ValidBlocks(blocks) && file == File(blocks)
    }

    constructor ()
      ensures Valid() && blocks == []
    {
      file, blocks := MAGIC, [];
    }

    /** The next `size` bytes of the file. */
    method Allocate(size: nat) returns (start: nat)
      modifies this`file
      ensures start == |old(file)| && file == old(file) + Fill(size, 0)
    {
      start := |file|;
      file := file + Fill(size, 0);
    }

    method WriteAt(data: seq<Byte>, at: nat)
      requires at + |data| <= |file|
      modifies this`file
      ensures file == Splice(old(file), at, data)
    {
      file := Splice(file, at, data);
    }
  }

  class OutputBlock {
    const output: OutputStreamAllocator
    const end: nat
    var offset: nat

    constructor (withOutput: OutputStreamAllocator, start: nat, withEnd: nat)
      ensures output == withOutput && offset == start && end == withEnd
    {
      output, offset, end := withOutput, start, withEnd;
    }

    /** A write succeeds if it fits; a write that does not moves the offset past the end all the same. */
    method Write(data: seq<Byte>) returns (at: Option<nat>)
      requires end <= |output.file|
      modifies this, output`file
      ensures at.Some? <==> old(offset) < end && old(offset) + |data| <= end
      ensures at.Some? ==> at.value == old(offset) && offset == old(offset) + |data|
      ensures at.Some? ==> output.file == Splice(old(output.file), old(offset), data)
      ensures at.None? ==> output.file == old(output.file)
    {
      if offset < end {
        var start := offset;
        offset := offset + |data|;
        if |data| <= end - start {
          output.WriteAt(data, start);
          return Some(start);
        }
      }
      at := None;
    }
  }

  lemma RenderNew(t: nat, start: nat)
    ensures NewThreadBlock(t).Valid()
    ensures NewThreadBlock(t).Render(start) ==
            [THREAD_EVENTS] + Little(start + THREAD_BLOCK_SIZE, 8) + Little(t, 4) + Fill(THREAD_BLOCK_SIZE - 13, 0)
  {
  }

  lemma FileMore(blocks: seq<Block>, b: Block)
    requires ValidBlocks(blocks) && b.Valid()
    ensures ValidBlocks(blocks + [b])
    ensures File(blocks + [b]) == File(blocks) + b.Render(|File(blocks)|)
    ensures StartOf(blocks + [b], |blocks|) == |File(blocks)|
  {
    assert (blocks + [b])[..|blocks|] == blocks;
  }

  /** The three writes of the header of a block of events. */
  lemma HeaderWritten(before: seq<Byte>, t: nat, end: nat)
    requires end == |before| + THREAD_BLOCK_SIZE
    ensures var empty := before + Fill(THREAD_BLOCK_SIZE, 0);
            var typed := Splice(empty, |before|, [THREAD_EVENTS]);
            var linked := Splice(typed, |before| + 1, Little(end, 8));
            Splice(linked, |before| + 9, Little(t, 4)) == before + NewThreadBlock(t).Render(|before|)
  {
    hide Little;
    RenderNew(t, |before|);
    var z := THREAD_BLOCK_SIZE;
    var kind, next, id: seq<Byte> := [THREAD_EVENTS], Little(end, 8), Little(t, 4);
    assert before + Fill(z, 0) == before + Fill(1, 0) + Fill(z - 1, 0);
    SpliceParts(before + Fill(z, 0), before, Fill(1, 0), Fill(z - 1, 0), kind);
    assert before + kind + Fill(z - 1, 0) == (before + kind) + Fill(8, 0) + Fill(z - 9, 0);
    SpliceParts(before + kind + Fill(z - 1, 0), before + kind, Fill(8, 0), Fill(z - 9, 0), next);
    assert before + kind + next + Fill(z - 9, 0) == (before + kind + next) + Fill(4, 0) + Fill(z - 13, 0);
    SpliceParts(before + kind + next + Fill(z - 9, 0), before + kind + next, Fill(4, 0), Fill(z - 13, 0), id);
    assert before + kind + next + id + Fill(z - 13, 0) == before + (kind + next + id + Fill(z - 13, 0));
  }

  /** Writing an event behind the contents of a block. */
  lemma ItemRendered(b: Block, start: nat, event: seq<Byte>)
    requires b.Valid() && HasRoom(b, event)
    ensures WithItem(b, event).Valid()
    ensures WithItem(b, event).Render(start) == Splice(b.Render(start), HEADER_SIZE + |b.Content()|, event)
  {
    hide Little, Block.Content;
    WithItemContent(b, event);
    var head: seq<Byte> := [b.kind] + Little(start + b.size, 8) + b.Content();
    var rest := b.size - HEADER_SIZE - |b.Content()|;
    assert b.Render(start) == head + Fill(|event|, 0) + Fill(rest - |event|, 0);
    SpliceParts(b.Render(start), head, Fill(|event|, 0), Fill(rest - |event|, 0), event);
    assert [b.kind] + Little(start + b.size, 8) + (b.Content() + event) == head + event;
  }

  lemma SpliceInside(a: seq<Byte>, b: seq<Byte>, at: nat, with: seq<Byte>)
    requires at + |with| <= |b|
    ensures Splice(a + b, |a| + at, with) == a + Splice(b, at, with)
  {
  }

  lemma SpliceBefore(a: seq<Byte>, b: seq<Byte>, at: nat, with: seq<Byte>)
    requires at + |with| <= |a|
    ensures Splice(a + b, at, with) == Splice(a, at, with) + b
  {
  }

  lemma {:induction false} ItemWritten(blocks: seq<Block>, k: nat, event: seq<Byte>)
    requires ValidBlocks(blocks) && k < |blocks| && HasRoom(blocks[k], event)
    ensures ValidBlocks(blocks[k := WithItem(blocks[k], event)])
    ensures StartOf(blocks, k) + HEADER_SIZE + |blocks[k].Content()| + |event| <= |File(blocks)|
    ensures File(blocks[k := WithItem(blocks[k], event)]) ==
            Splice(File(blocks), StartOf(blocks, k) + HEADER_SIZE + |blocks[k].Content()|, event)
    decreases |blocks|
  {
    hide Block.Content, Block.Render, File, Size, Splice;
    var n, at, item := |blocks| - 1, HEADER_SIZE + |blocks[k].Content()|, WithItem(blocks[k], event);
    var before, last := File(blocks[..n]), blocks[n];
    ItemRendered(blocks[k], StartOf(blocks, k), event);
    BlockInFile(blocks, k);
    FileMore(blocks[..n], last);
    assert blocks == blocks[..n] + [last];
    if k < n {
      ItemWritten(blocks[..n], k, event);
      assert blocks[..n][..k] == blocks[..k];
      FileMore(blocks[..n][k := item], last);
      assert blocks[k := item] == blocks[..n][k := item] + [last];
      SpliceBefore(before, last.Render(|before|), StartOf(blocks, k) + at, event);
    } else {
      FileMore(blocks[..n], item);
      assert blocks[k := item] == blocks[..n] + [item];
      SpliceInside(before, last.Render(|before|), at, event);
    }
  }

  /** The events of one thread. */
  class OutputBlockThreadEventStream {
    const output: OutputStreamAllocator
    const thread: nat
    var block: OutputBlock?
    /** The position of the stream's block in the file. */
    ghost var index: nat

    /** The stream's block is one of the file's, and is written up to its offset. */
    ghost predicate Placed()
      reads this, output, block
    {
      block != null ==>
        && block.output == output
        && index < |output.blocks|
        && var b, start := output.blocks[index], StartOf(output.blocks, index);
           && b.kind == THREAD_EVENTS && b.thread == thread && b.Valid()
           && block.end == start + b.size && block.offset == start + HEADER_SIZE + |b.Content()|
    }

    ghost predicate Valid()
      reads this, output, block
    {
      output.Valid() && Placed()
    }

    constructor (withOutput: OutputStreamAllocator, withThread: nat)
      requires withOutput.Valid()
      ensures Valid() && output == withOutput && thread == withThread && block == null
    {
      output, thread, block := withOutput, withThread, null;
    }

    method GetNewBlock()
      requires output.Valid()
      modifies this, output
      ensures Valid() && block != null && fresh(block)
      ensures output.blocks == old(output.blocks) + [NewThreadBlock(thread)] && index == |old(output.blocks)|
    {
      hide Little, Block.Render, Fill;
      ghost var before := output.file;
      var start := output.Allocate(THREAD_BLOCK_SIZE);
      var end := start + THREAD_BLOCK_SIZE;
      var b := new OutputBlock(output, start, end);
      var kind := b.Write([THREAD_EVENTS]);
      var next := b.Write(Little(end, 8));
      var id := b.Write(Little(thread, 4));
      HeaderWritten(before, thread, end);
      RenderNew(thread, start);
      FileMore(output.blocks, NewThreadBlock(thread));
      index := |output.blocks|;
      output.blocks := output.blocks + [NewThreadBlock(thread)];
      block := b;
      EmptyContent(thread);
    }

    static lemma EmptyContent(t: nat)
      ensures |NewThreadBlock(t).Content()| == 4
    {
    }

    /** Write an event into the stream's block, if there is one. */
    method WriteHere(event: seq<Byte>) returns (ok: bool)
      requires Valid() && block != null
      modifies output, block
      ensures ok <==> HasRoom(old(output.blocks[index]), event)
      ensures ok ==> Valid()
      ensures ok ==> output.blocks == old(output.blocks)[index := WithItem(old(output.blocks)[index], event)]
      ensures !ok ==> output.Valid() && output.blocks == old(output.blocks)
    {
      hide Block.Content, Block.Render, File, Size, Splice;
      BlockEnds(output.blocks, index);
      var at := block.Write(event);
      ok := at.Some?;
      if ok {
        ItemWritten(output.blocks, index, event);
        WithItemContent(output.blocks[index], event);
        output.blocks := output.blocks[index := WithItem(output.blocks[index], event)];
        assert output.blocks[..index] == old(output.blocks)[..index];
      }
    }

    static lemma BlockEnds(blocks: seq<Block>, i: nat)
      requires ValidBlocks(blocks) && i < |blocks|
      ensures StartOf(blocks, i) + blocks[i].size <= |File(blocks)|
    {
      hide Block.Render;
      BlockInFile(blocks, i);
    }

    /** Write an event, into a new block if there is none or the old one is out of room. */
    method Write(event: seq<Byte>)
      requires Valid() && |event| <= THREAD_BLOCK_SIZE - HEADER_SIZE - 4
      modifies this, output, block
      ensures Valid()
      ensures block == old(block) || fresh(block)
      ensures old(block) != null && HasRoom(old(output.blocks[index]), event) ==>
                && index == old(index)
                && output.blocks == old(output.blocks)[index := WithItem(old(output.blocks)[index], event)]
      ensures old(block) == null || !HasRoom(old(output.blocks[index]), event) ==>
                && index == |old(output.blocks)|
                && output.blocks == old(output.blocks) + [WithItem(NewThreadBlock(thread), event)]
    {
      hide Block.Content, Block.Render, File, Size, Splice;
      ghost var before := output.blocks;
      NewBlockFits(thread, event);
      RoomInNew(thread, event);
      var ok := false;
      if block != null {
        ok := WriteHere(event);
      }
      if !ok {
        GetNewBlock();
        ok := WriteHere(event);
        assert output.blocks == before + [WithItem(NewThreadBlock(thread), event)];
      }
    }

    static lemma RoomInNew(t: nat, event: seq<Byte>)
      requires |event| <= THREAD_BLOCK_SIZE - HEADER_SIZE - 4
      ensures HasRoom(NewThreadBlock(t), event)
    {
      EmptyContent(t);
    }
  }
}
