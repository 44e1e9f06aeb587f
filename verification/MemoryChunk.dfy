/**
 The chunk object over real bytes: the stack of free blocks is an intrusive list whose links live
 in the first word of each free block, in memory that clients may overwrite while they own a block.
 */
module MemoryChunks {
  import opened Provider
  import opened BlockLayouts
  import opened BlockMemory
  import C = ChunkModel

  class MemoryChunk {
    const storage: Addr
    const stride: nat
    const count: nat
    const alignment: nat
    const bytes: array<Byte>
    var freeHead: Addr
    var states: seq<bool>
    var freeBlocks: nat
    ghost var stack: seq<nat>

    function Layout(): BlockLayout {
      BlockLayout(stride, count, alignment, 0, stride, C.StorageSize(stride, count))
    }

    ghost function View(): C.Chunk
      reads this
    {
      C.Chunk(storage, stride, count, alignment, stack)
    }

    /**
     The list in memory is acyclic and null-terminated, runs exactly through the blocks whose
     state is free, and has `freeBlocks` elements.
     */
    ghost predicate Valid()
      reads this, bytes
    {
      && C.ChunkOk(View())
      && Covers(Layout(), bytes.Length)
      && freeBlocks == |stack|
      && C.Threaded(View(), Words(Layout(), bytes[..]), freeHead)
      && C.StatesOk(View(), states)
    }

    lemma Sane()
      requires Valid()
      ensures C.ChunkOk(View()) && stride != 0 && freeBlocks == |stack|
    {
    }

    constructor (storage: Addr, l: BlockLayout)
      requires C.Fits(storage, l)
      ensures Valid() && fresh(bytes) && View() == C.Fresh(storage, l)
    {
      this.storage, stride, count, alignment := storage, l.blockStride, l.blockCount, l.alignment;
      states := seq(l.blockCount, i => false);
      bytes := new Byte[C.StorageSize(l.blockStride, l.blockCount)];
      freeHead := 0;
      freeBlocks := 0;
      stack := [];
      new;
      assert Covers(Layout(), bytes.Length);
      C.FreshOk(storage, l);
      assert forall k: nat :: k <= count ==> C.ChunkOk(View().(free := C.Upwards(k, count)));
      hide C.ChunkOk, C.Fits, C.Threaded, Covers, C.StorageSize;
      InitializeFreeList();
      assert stack == C.Fresh(storage, l).free;
      C.AllFree(View(), states);
    }

    /** Builds the list backwards, so that block zero is the first to be allocated. */
    method InitializeFreeList()
      requires Covers(Layout(), bytes.Length) && stack == []
      requires forall k: nat :: k <= count ==> C.ChunkOk(View().(free := C.Upwards(k, count)))
      modifies `freeHead, `freeBlocks, `stack, bytes
      ensures |stack| == freeBlocks == count && stack == C.Upwards(0, count)
      ensures C.Threaded(View(), Words(Layout(), bytes[..]), freeHead)
    {
      hide C.BlockAddress, C.ChunkOk, C.Threaded, Covers, Words, C.Upwards, At, SameOutside;
      freeHead := 0;
      var index: nat := count;
      C.UpwardsAll(count);
      C.NoLinks(View(), Words(Layout(), bytes[..]));
      while index > 0
        invariant index <= count && stack == C.Upwards(index, count)
        invariant C.Threaded(View(), Words(Layout(), bytes[..]), freeHead)
      {
        ghost var c, before, head := View(), Words(Layout(), bytes[..]), freeHead;
        assert C.ChunkOk(c);
        C.HeadInRange(c, before, head);
        C.UpwardsFrom(index, count);
        WriteLink(bytes, Layout(), index - 1, freeHead);
        freeHead := C.BlockAddress(storage, stride, index - 1);
        stack := [index - 1] + stack;
        index := index - 1;
        C.ThreadPush(c, before, head, index);
        assert Words(Layout(), bytes[..]) == before[index := head];
      }
      freeBlocks := count;
    }

    method Allocate() returns (p: Addr)
      requires Valid()
      modifies this
      ensures Valid() && (View(), p) == C.Allocate(old(View()))
    {
      if freeHead == 0 {
        C.NoNullLink(View());
        return 0;
      }
      p := freeHead;
      ghost var c := View();
      C.AllocateOk(c);
      C.IndexOfBlock(c, stack[0]);
      C.PopThreaded(c, Words(Layout(), bytes[..]), freeHead, states);
      hide C.ChunkOk, C.Threaded, C.StatesOk, C.BlockIndex, C.BlockAddress, C.StartsBlock, Covers, Words;
      var index := C.BlockIndex(storage, stride, p);
      freeHead := ReadLink(bytes, Layout(), index);
      freeBlocks := freeBlocks - 1;
      states := states[index := true];
      stack := stack[1..];
    }

    /** Foreign, interior and duplicate pointers are rejected and nothing at all changes. */
    method Deallocate(p: Addr) returns (r: C.FreeResult)
      requires Valid()
      modifies this, bytes
      ensures Valid() && (View(), r) == C.Deallocate(old(View()), p)
      ensures r != C.Freed ==> unchanged(this) && unchanged(bytes)
    {
      if p == 0 {
        return C.NullIgnored;
      }
      ghost var c := View();
      C.Basics(c, p);
      hide C.ChunkOk, C.Owned, C.BlockIndex, C.BlockAddress, C.StartsBlock, Covers, Words;
      if !C.StartsBlock(storage, stride, count, p) {
        return C.InvalidPointer;
      }
      var index := C.BlockIndex(storage, stride, p);
      if !states[index] {
        return C.DoubleFree;
      }
      C.DeallocateOk(c, p);
      ghost var before := Words(Layout(), bytes[..]);
      C.HeadInRange(c, before, freeHead);
      C.PushThreaded(c, before, freeHead, states, index);
      hide C.Threaded, C.StatesOk;
      states := states[index := false];
      WriteLink(bytes, Layout(), index, freeHead);
      assert Words(Layout(), bytes[..]) == before[index := freeHead];
      freeHead := p;
      freeBlocks := freeBlocks + 1;
      stack := [index] + stack;
      r := C.Freed;
    }

    /** A client writes whatever it likes, anywhere in a block it owns: list, table and other blocks stay. */
    method ClientWrites(k: nat, at: nat, data: seq<Byte>)
      requires Valid() && k < count && k !in stack && at + |data| <= stride
      modifies bytes
      ensures Valid() && View() == old(View())
      ensures SameOutside(old(bytes[..]), bytes[..], At(Layout(), k), At(Layout(), k) + stride)
    {
      ghost var before := bytes[..];
      BlockRange(Layout(), k);
      hide C.ChunkOk, C.Threaded, C.StatesOk, Words, At;
      CopyBytes(bytes, At(Layout(), k) + at, data);
      OtherWordsKept(Layout(), before, bytes[..], k);
      hide SameOutside, Covers;
      C.ThreadedFrame(View(), Words(Layout(), before), Words(Layout(), bytes[..]), freeHead);
    }
  }
}
