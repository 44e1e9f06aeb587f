/** One chunk of equal-size blocks on values: a LIFO stack of free block indices. */
module ChunkModel {
  import opened Bits
  import opened Provider
  import opened BlockLayouts

  /** sizeof(FreeNode) and alignof(FreeNode). */
  const NODE: nat := 8

  function BlockAddress(storage: Addr, stride: nat, k: nat): Addr {
    storage + k * stride
  }

  /** `block_index`. */
  function BlockIndex(storage: Addr, stride: nat, p: Addr): nat
    requires stride != 0 && storage <= p
  {
    (p - storage) / stride
  }

  function StorageSize(stride: nat, count: nat): nat {
    stride * count
  }

  /** `owns` and `is_block_start`. */
  predicate Owned(storage: Addr, stride: nat, count: nat, p: Addr) {
    p != 0 && storage <= p && p - storage < StorageSize(stride, count)
  }

  predicate StartsBlock(storage: Addr, stride: nat, count: nat, p: Addr)
    requires stride != 0
  {
    Owned(storage, stride, count, p) && (p - storage) % stride == 0
  }

  /** `free` lists the free blocks, the next one to be allocated first. */
  datatype Chunk = Chunk(storage: Addr, stride: nat, count: nat, alignment: nat, free: seq<nat>) {
    function Size(): nat {
      StorageSize(stride, count)
    }

    function Whole(): Region {
      Region(storage, Size())
    }

    function Block(k: nat): Region {
      Region(BlockAddress(storage, stride, k), stride)
    }

    predicate Owns(p: Addr) {
      Owned(storage, stride, count, p)
    }

    predicate IsBlockStart(p: Addr)
      requires stride != 0
    {
      StartsBlock(storage, stride, count, p)
    }

    function IndexOf(p: Addr): nat
      requires stride != 0 && storage <= p
    {
      BlockIndex(storage, stride, p)
    }

    /** No block of the chunk is in use. */
    predicate Empty() {
      |free| == count
    }
  }

  datatype FreeResult = Freed | NullIgnored | InvalidPointer | DoubleFree

  function Fresh(storage: Addr, l: BlockLayout): Chunk {
    Chunk(storage, l.blockStride, l.blockCount, l.alignment, Indices(l.blockCount))
  }

  function Allocate(c: Chunk): (Chunk, Addr) {
    if |c.free| == 0 then (c, 0)
    else (c.(free := c.free[1..]), c.Block(c.free[0]).start)
  }

  function Deallocate(c: Chunk, p: Addr): (Chunk, FreeResult)
    requires c.stride != 0
  {
    if p == 0 then (c, NullIgnored)
    else if !c.IsBlockStart(p) then (c, InvalidPointer)
    else
      var k := c.IndexOf(p);
      if k in c.free then (c, DoubleFree) else (c.(free := [k] + c.free), Freed)
  }

  /** A well-formed chunk: blocks are numbered, the free ones are listed once each. */
  ghost predicate ChunkOk(c: Chunk) {
    && c.stride >= NODE && c.count > 0 && c.alignment > 0
    && c.storage != 0 && c.storage % c.alignment == 0 && c.stride % c.alignment == 0
    && c.storage + c.Size() <= SIZE_LIMIT
    && (forall i :: 0 <= i < |c.free| ==> c.free[i] < c.count)
    && (forall i, j :: 0 <= i < j < |c.free| ==> c.free[i] != c.free[j])
  }

  lemma MulOrder(k: nat, n: nat, stride: nat)
    requires k < n
    ensures k * stride + stride <= n * stride
  {
    assert (k + 1) * stride <= n * stride by { MulMono(k + 1, n, stride); }
  }

  /** Blocks lie in their chunk and do not overlap. */
  lemma BlocksApart(c: Chunk, k: nat, l: nat)
    requires k < c.count && l < c.count && k != l
    ensures Inside(c.Block(k), c.Whole()) && Apart(c.Block(k), c.Block(l))
  {
    MulOrder(k, c.count, c.stride);
    if k < l {
      MulOrder(k, l, c.stride);
    } else {
      MulOrder(l, k, c.stride);
    }
  }

  lemma BlockInside(c: Chunk, k: nat)
    requires k < c.count
    ensures Inside(c.Block(k), c.Whole())
  {
    MulOrder(k, c.count, c.stride);
  }

  /** The division and remainder test recognise exactly the starts of blocks. */
  lemma BlockStartExact(c: Chunk, p: Addr)
    requires c.stride > 0 && c.storage != 0
    ensures c.IsBlockStart(p) <==> exists k: nat :: k < c.count && p == c.Block(k).start
    ensures c.IsBlockStart(p) ==> c.IndexOf(p) < c.count && p == c.Block(c.IndexOf(p)).start
  {
    if c.IsBlockStart(p) {
      var k := c.IndexOf(p);
      assert p - c.storage == k * c.stride;
      if k >= c.count {
        MulMono(c.count, k, c.stride);
      }
      assert p == c.Block(k).start;
    }
    forall k: nat | k < c.count && p == c.Block(k).start
      ensures c.IsBlockStart(p)
    {
      IndexOfBlock(c, k);
    }
  }

  lemma IndexOfBlock(c: Chunk, k: nat)
    requires k < c.count && c.stride > 0 && c.storage != 0
    ensures var p := c.Block(k).start; c.IsBlockStart(p) && c.IndexOf(p) == k
  {
    MulOrder(k, c.count, c.stride);
    MultipleModZero(k, c.stride);
  }

  /** The layout can be placed at `storage`. */
  ghost predicate Fits(storage: Addr, l: BlockLayout) {
    && storage != 0 && l.alignment > 0 && storage % l.alignment == 0
    && l.blockStride >= NODE && l.blockCount > 0 && l.blockStride % l.alignment == 0
    && storage + StorageSize(l.blockStride, l.blockCount) <= SIZE_LIMIT
  }

  lemma FreshOk(storage: Addr, l: BlockLayout)
    requires Fits(storage, l)
    ensures ChunkOk(Fresh(storage, l)) && Fresh(storage, l).Empty()
  {
  }

  /** An allocation hands out a block that was free and is not any more; its address is aligned. */
  lemma AllocateOk(c: Chunk)
    requires ChunkOk(c) && |c.free| > 0
    ensures var (n, p) := Allocate(c);
            && ChunkOk(n)
            && c.free[0] < c.count && p == c.Block(c.free[0]).start && p % c.alignment == 0 && p != 0
            && c.free[0] !in n.free
            && (forall k :: k != c.free[0] ==> (k in n.free <==> k in c.free))
  {
    var (n, p) := Allocate(c);
    assert c.free == [c.free[0]] + n.free;
    assert forall i :: 0 <= i < |n.free| ==> n.free[i] == c.free[i + 1];
    AlignedBlock(c, c.free[0]);
  }

  lemma AlignedBlock(c: Chunk, k: nat)
    requires c.alignment > 0 && c.storage % c.alignment == 0 && c.stride % c.alignment == 0
    ensures c.Block(k).start % c.alignment == 0
  {
    assert (k * c.stride) % c.alignment == 0 by {
      var q := c.stride / c.alignment;
      assert c.stride == q * c.alignment;
      assert k * c.stride == (k * q) * c.alignment;
      MultipleModZero(k * q, c.alignment);
    }
    ModAdd(c.storage, k * c.stride, c.alignment);
  }

  lemma Basics(c: Chunk, p: Addr)
    requires ChunkOk(c)
    ensures c.stride >= NODE && c.storage != 0
    ensures c.Owns(p) ==> c.storage <= p
    ensures c.IsBlockStart(p) ==> c.Owns(p) && c.IndexOf(p) < c.count && p == c.Block(c.IndexOf(p)).start
  {
    BlockStartExact(c, p);
  }

  lemma DeallocateOk(c: Chunk, p: Addr)
    requires ChunkOk(c)
    ensures var (n, r) := Deallocate(c, p);
            && ChunkOk(n)
            && (r != Freed ==> n == c)
            && (r == Freed ==>
                  && c.IsBlockStart(p) && c.IndexOf(p) < c.count && c.IndexOf(p) !in c.free
                  && n.free == [c.IndexOf(p)] + c.free)
  {
    BlockStartExact(c, p);
  }

  /** Freeing what was just allocated restores the chunk. */
  lemma AllocateThenFree(c: Chunk)
    requires ChunkOk(c) && |c.free| > 0
    ensures var (n, p) := Allocate(c); Deallocate(n, p) == (c, Freed)
  {
    var (n, p) := Allocate(c);
    AllocateOk(c);
    IndexOfBlock(c, c.free[0]);
    assert [c.free[0]] + c.free[1..] == c.free;
  }

  // ---- the free stack as a list threaded through the blocks ----

  /** The address of the `i`-th free block, null past the end. */
  function Link(c: Chunk, i: nat): Addr {
    if i < |c.free| then c.Block(c.free[i]).start else 0
  }

  /**
   `words[k]` is the first word of block `k`. Starting at `head`, the words of the free blocks
   form a null-terminated list through exactly those blocks, in order; the words of blocks in
   use are unconstrained.
   */
  ghost predicate Threaded(c: Chunk, words: seq<Addr>, head: Addr) {
    && |words| == c.count
    && head == Link(c, 0)
    && forall i :: 0 <= i < |c.free| ==> c.free[i] < c.count && words[c.free[i]] == Link(c, i + 1)
  }

  /** The state table marks exactly the blocks in use. */
  ghost predicate StatesOk(c: Chunk, states: seq<bool>) {
    |states| == c.count && forall k :: 0 <= k < c.count ==> (states[k] <==> k !in c.free)
  }

  lemma PopThreaded(c: Chunk, words: seq<Addr>, head: Addr, states: seq<bool>)
    requires ChunkOk(c) && Threaded(c, words, head) && StatesOk(c, states) && |c.free| > 0
    ensures var n, k := Allocate(c).0, c.free[0];
            Threaded(n, words, words[k]) && StatesOk(n, states[k := true])
  {
    var n, k := Allocate(c).0, c.free[0];
    hide BlockAddress;
    PopLinks(c, words, head);
    assert c.free == [k] + n.free;
    hide Threaded, Link;
  }

  lemma PopLinks(c: Chunk, words: seq<Addr>, head: Addr)
    requires Threaded(c, words, head) && |c.free| > 0
    ensures Threaded(c.(free := c.free[1..]), words, words[c.free[0]])
  {
    hide BlockAddress;
    var n := c.(free := c.free[1..]);
    assert forall i :: 0 <= i < |n.free| ==> n.free[i] == c.free[i + 1];
    assert forall i: nat :: Link(n, i) == Link(c, i + 1);
  }

  lemma NoLinks(c: Chunk, words: seq<Addr>)
    requires c.free == [] && |words| == c.count
    ensures Threaded(c, words, 0)
  {
  }

  lemma AllFree(c: Chunk, states: seq<bool>)
    requires |states| == c.count == |c.free|
    requires forall i :: 0 <= i < |c.free| ==> c.free[i] == i && !states[i]
    ensures StatesOk(c, states)
  {
    forall k | 0 <= k < c.count
      ensures k in c.free
    {
      assert c.free[k] == k;
    }
  }

  lemma NoNullLink(c: Chunk)
    requires ChunkOk(c)
    ensures Link(c, 0) == 0 <==> |c.free| == 0
  {
  }

  lemma ThreadPush(c: Chunk, words: seq<Addr>, head: Addr, k: nat)
    requires Threaded(c, words, head) && k < c.count && k !in c.free
    ensures Threaded(c.(free := [k] + c.free), words[k := head], c.Block(k).start)
  {
    var n := c.(free := [k] + c.free);
    assert forall i :: 0 <= i < |c.free| ==> n.free[i + 1] == c.free[i];
    assert forall i: nat :: Link(n, i + 1) == Link(c, i);
  }

  lemma PushThreaded(c: Chunk, words: seq<Addr>, head: Addr, states: seq<bool>, k: nat)
    requires ChunkOk(c) && Threaded(c, words, head) && StatesOk(c, states) && k < c.count && k !in c.free
    ensures var n := c.(free := [k] + c.free);
            Threaded(n, words[k := head], c.Block(k).start) && StatesOk(n, states[k := false])
  {
    ThreadPush(c, words, head, k);
  }

  /** All blocks, in the order in which a new pool hands them out. */
  function Indices(n: nat): (s: seq<nat>)
    ensures |s| == n && forall i :: 0 <= i < n ==> s[i] == i
  {
    seq(n, i => i)
  }

  function Upwards(from: nat, n: nat): (s: seq<nat>)
    requires from <= n
  {
    seq(n - from, i requires 0 <= i => from + i)
  }

  lemma UpwardsFrom(from: nat, n: nat)
    requires 0 < from <= n
    ensures Upwards(from - 1, n) == [from - 1] + Upwards(from, n) && from - 1 !in Upwards(from, n)
  {
  }

  lemma UpwardsAll(n: nat)
    ensures Upwards(n, n) == [] && Upwards(0, n) == Indices(n)
  {
  }

  /** Only the words of listed blocks matter to the list. */
  lemma ThreadedFrame(c: Chunk, a: seq<Addr>, b: seq<Addr>, head: Addr)
    requires Threaded(c, a, head) && |a| == |b|
    requires forall j :: j in c.free && j < |a| ==> a[j] == b[j]
    ensures Threaded(c, b, head)
  {
  }

  lemma HeadInRange(c: Chunk, words: seq<Addr>, head: Addr)
    requires ChunkOk(c) && Threaded(c, words, head)
    ensures head < SIZE_LIMIT && (head == 0 <==> c.free == [])
  {
    if |c.free| > 0 {
      BlockInside(c, c.free[0]);
    }
  }
}
