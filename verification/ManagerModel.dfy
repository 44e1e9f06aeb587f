/**
 A growing pool of chunks on values: allocation from the first chunk with a free block,
 growth when there is none, and reclamation of a chunk that becomes completely free.
 */
module ManagerModel {
  import opened Bits
  import opened Provider
  import opened Growth
  import opened BlockLayouts
  import opened ChunkModel

  datatype Options = Options(blockSize: nat, initialBlocks: nat, alignment: nat, growth: Policy, spare: nat)

  /** `growths` is history: the number of chunks acquired so far. */
  datatype Manager = Manager(opts: Options, chunks: seq<Chunk>, next: nat, growths: nat)

  /**
   What the environment does if the pool has to grow: the provider's answer, and whether
   bookkeeping memory was available.
   */
  datatype Supply = Supply(answer: Option<Addr>, bookkeeping: bool)

  predicate Usable(o: Options) {
    o.alignment <= SIZE_MAX && ValidPolicy(o.growth, o.initialBlocks)
  }

  function LayoutOf(m: Manager): Result<BlockLayout>
    requires Usable(m.opts)
  {
    MakeLayout(m.opts.blockSize, m.next, m.opts.alignment, false, NODE, NODE, 0)
  }

  /** Whether growth succeeds; if not, a block the provider handed out has been given back. */
  predicate Grows(m: Manager, supply: Supply)
    requires Usable(m.opts)
  {
    LayoutOf(m).Ok? && supply.answer.Some? && supply.bookkeeping
  }

  function Grow(m: Manager, supply: Supply): Manager
    requires Usable(m.opts)
  {
    if !Grows(m, supply) then m
    else m.(chunks := m.chunks + [Fresh(supply.answer.value, LayoutOf(m).value)],
            next := NextSize(m.opts.growth, m.opts.initialBlocks, m.next),
            growths := m.growths + 1)
  }

  /** The first chunk from `from` on with a free block. */
  function FirstAvailable(chunks: seq<Chunk>, from: nat): (j: nat)
    requires from <= |chunks|
    ensures from <= j <= |chunks|
    ensures j < |chunks| ==> |chunks[j].free| > 0
    ensures forall i :: from <= i < j ==> |chunks[i].free| == 0
    decreases |chunks| - from
  {
    if from == |chunks| || |chunks[from].free| > 0 then from else FirstAvailable(chunks, from + 1)
  }

  /** The first chunk from `from` on whose storage contains `p`. */
  function FindChunk(chunks: seq<Chunk>, p: Addr, from: nat): (j: nat)
    requires from <= |chunks|
    ensures from <= j <= |chunks|
    ensures j < |chunks| ==> chunks[j].Owns(p)
    ensures forall i :: from <= i < j ==> !chunks[i].Owns(p)
    decreases |chunks| - from
  {
    if from == |chunks| || chunks[from].Owns(p) then from else FindChunk(chunks, p, from + 1)
  }

  /** A chunk of the pool contains `p`. */
  predicate PoolOwns(m: Manager, p: Addr) {
    FindChunk(m.chunks, p, 0) < |m.chunks|
  }

  ghost predicate DistinctStorage(chunks: seq<Chunk>) {
    forall i, j :: 0 <= i < j < |chunks| ==> chunks[i].storage != chunks[j].storage
  }

  function TakeFrom(m: Manager, j: nat): Manager
    requires j < |m.chunks|
  {
    m.(chunks := m.chunks[j := ChunkModel.Allocate(m.chunks[j]).0])
  }

  /** The growing pool's `allocate`; null means it threw. */
  function Allocate(m: Manager, supply: Supply): (Manager, Addr)
    requires Usable(m.opts)
  {
    var j := FirstAvailable(m.chunks, 0);
    if j < |m.chunks| then (TakeFrom(m, j), ChunkModel.Allocate(m.chunks[j]).1)
    else if !Grows(m, supply) then (m, 0)
    else
      var g := Grow(m, supply);
      (TakeFrom(g, |m.chunks|), ChunkModel.Allocate(g.chunks[|m.chunks|]).1)
  }

  function EmptyCount(chunks: seq<Chunk>): nat {
    if |chunks| == 0 then 0
    else EmptyCount(chunks[..|chunks| - 1]) + if chunks[|chunks| - 1].Empty() then 1 else 0
  }

  function Without(chunks: seq<Chunk>, j: nat): seq<Chunk>
    requires j < |chunks|
  {
    chunks[..j] + chunks[j + 1..]
  }

  /** The manager after it has given up its last chunk, as on destruction. */
  function DropLast(m: Manager): Manager
    requires |m.chunks| > 0
  {
    m.(chunks := Without(m.chunks, |m.chunks| - 1))
  }

  /** Whether the chunk that just became free is given back. */
  predicate Reclaims(m: Manager, j: nat)
    requires j < |m.chunks|
  {
    m.chunks[j].Empty() && EmptyCount(m.chunks) > m.opts.spare
  }

  function Reclaim(m: Manager, j: nat): Manager
    requires j < |m.chunks|
  {
    if Reclaims(m, j) then m.(chunks := Without(m.chunks, j)) else m
  }

  /** Returning `p` to chunk `j`, before any reclamation. */
  function Returned(m: Manager, j: nat, p: Addr): Manager
    requires j < |m.chunks| && m.chunks[j].stride != 0
  {
    m.(chunks := m.chunks[j := ChunkModel.Deallocate(m.chunks[j], p).0])
  }

  function Deallocate(m: Manager, p: Addr): (Manager, FreeResult)
    requires forall j :: 0 <= j < |m.chunks| ==> m.chunks[j].stride != 0
  {
    if p == 0 then (m, NullIgnored)
    else
      var j := FindChunk(m.chunks, p, 0);
      if j == |m.chunks| then (m, InvalidPointer)
      else
        var r := ChunkModel.Deallocate(m.chunks[j], p).1;
        if r != Freed then (m, r) else (Reclaim(Returned(m, j, p), j), Freed)
  }

  // ---- reclamation ----

  lemma WithoutDistinct(chunks: seq<Chunk>, j: nat)
    requires DistinctStorage(chunks) && j < |chunks|
    ensures DistinctStorage(Without(chunks, j))
  {
    var rest := Without(chunks, j);
    assert forall k :: 0 <= k < |rest| ==> rest[k] == chunks[if k < j then k else k + 1];
  }

  lemma {:induction false} EmptyCountUpdate(chunks: seq<Chunk>, j: nat, c: Chunk)
    requires j < |chunks|
    ensures EmptyCount(chunks[j := c]) ==
            EmptyCount(chunks) - (if chunks[j].Empty() then 1 else 0) + (if c.Empty() then 1 else 0)
  {
    var n := |chunks| - 1;
    if j == n {
      assert chunks[j := c][..n] == chunks[..n];
    } else {
      assert chunks[j := c][..n] == chunks[..n][j := c];
      EmptyCountUpdate(chunks[..n], j, c);
    }
  }

  lemma {:induction false} EmptyCountWithout(chunks: seq<Chunk>, j: nat)
    requires j < |chunks|
    ensures EmptyCount(Without(chunks, j)) == EmptyCount(chunks) - (if chunks[j].Empty() then 1 else 0)
  {
    var n := |chunks| - 1;
    if j == n {
      assert Without(chunks, j) == chunks[..n];
    } else {
      assert Without(chunks, j)[..n - 1] == Without(chunks[..n], j);
      EmptyCountWithout(chunks[..n], j);
    }
  }

  /** Chunks of a manager are well formed and hold at least one block each. */
  ghost predicate ManagerOk(m: Manager) {
    && Usable(m.opts) && IsPowerOfTwo(m.opts.alignment)
    && (forall j :: 0 <= j < |m.chunks| ==> ChunkOk(m.chunks[j]))
    && m.next == SizeAfter(m.opts.growth, m.opts.initialBlocks, m.growths)
  }

  /** The next chunk size, in unbounded arithmetic, from the number of successful growths alone. */
  lemma NextGrowthClosedForm(m: Manager)
    requires ManagerOk(m)
    ensures m.next == ClosedForm(m.opts.growth, m.opts.initialBlocks, m.growths)
  {
    GrowthClosedForm(m.opts.growth, m.opts.initialBlocks, m.growths);
  }

  /** Memory the provider may hand out for the next chunk. */
  ghost predicate Supplied(m: Manager, supply: Supply)
    requires Usable(m.opts)
  {
    Grows(m, supply) ==> Fits(supply.answer.value, LayoutOf(m).value)
  }

  /** Growth appends one empty chunk, moves the size sequence one step, and touches nothing else. */
  lemma GrowOk(m: Manager, supply: Supply)
    requires ManagerOk(m) && Supplied(m, supply)
    ensures ManagerOk(Grow(m, supply))
    ensures Grows(m, supply) ==>
              && Grow(m, supply).chunks[|m.chunks|].Empty()
              && |Grow(m, supply).chunks[|m.chunks|].free| > 0
              && EmptyCount(Grow(m, supply).chunks) == EmptyCount(m.chunks) + 1
  {
    if Grows(m, supply) {
      FreshOk(supply.answer.value, LayoutOf(m).value);
      var g := Grow(m, supply);
      assert g.chunks[..|m.chunks|] == m.chunks;
    }
  }

  lemma TakeOk(m: Manager, j: nat)
    requires ManagerOk(m) && j < |m.chunks| && |m.chunks[j].free| > 0
    ensures ManagerOk(TakeFrom(m, j))
    ensures EmptyCount(TakeFrom(m, j).chunks) == EmptyCount(m.chunks) - if m.chunks[j].Empty() then 1 else 0
  {
    ChunkModel.AllocateOk(m.chunks[j]);
    FreeAtMost(m.chunks[j]);
    EmptyCountUpdate(m.chunks, j, ChunkModel.Allocate(m.chunks[j]).0);
  }

  lemma FreeAtMost(c: Chunk)
    requires ChunkOk(c)
    ensures |c.free| <= c.count
  {
    DistinctSize(c.free, |c.free|);
    BoundedSize(set i | 0 <= i < |c.free| :: c.free[i], c.count);
  }

  lemma {:induction false} DistinctSize(xs: seq<nat>, n: nat)
    requires n <= |xs| && forall i, j :: 0 <= i < j < |xs| ==> xs[i] != xs[j]
    ensures |set i | 0 <= i < n :: xs[i]| == n
  {
    if n > 0 {
      DistinctSize(xs, n - 1);
      assert (set i | 0 <= i < n :: xs[i]) == (set i | 0 <= i < n - 1 :: xs[i]) + {xs[n - 1]};
    }
  }

  lemma {:induction false} BoundedSize(s: set<nat>, n: nat)
    requires forall x :: x in s ==> x < n
    ensures |s| <= n
  {
    if n > 0 {
      BoundedSize(s - {n - 1}, n - 1);
    }
  }

  /** In a chunk with as many free blocks as blocks, every block is free. */
  lemma EmptyMeansAllFree(c: Chunk, k: nat)
    requires ChunkOk(c) && c.Empty() && k < c.count
    ensures k in c.free
  {
    var s := set i | 0 <= i < |c.free| :: c.free[i];
    DistinctSize(c.free, |c.free|);
    if k !in c.free {
      assert k !in s;
      BoundedSize(s + {k}, c.count);
    }
  }

  /** Block `k` of chunk `c`, with address `p`, is in use. */
  ghost predicate InUse(chunks: seq<Chunk>, c: Chunk, k: nat, p: Addr) {
    c in chunks && k < c.count && k !in c.free && p == c.Block(k).start
  }

  ghost predicate Used(chunks: seq<Chunk>, p: Addr) {
    exists c, k :: InUse(chunks, c, k, p)
  }

  /** A chunk is reclaimed only when no block of it is in use: no other live address is lost. */
  lemma DeallocateKeepsOthers(m: Manager, p: Addr, q: Addr)
    requires ManagerOk(m) && Used(m.chunks, q) && q != p
    ensures Used(Deallocate(m, p).0.chunks, q)
  {
    var (n, r) := Deallocate(m, p);
    var c, k :| InUse(m.chunks, c, k, q);
    assert InUse(m.chunks, c, k, q);
    if r == Freed {
      var j := FindChunk(m.chunks, p, 0);
      var i :| 0 <= i < |m.chunks| && m.chunks[i] == c;
      OtherBlockStays(m.chunks[j], p, k, q);
      var mid := Returned(m, j, p);
      var e := mid.chunks[i];
      hide ManagerOk, ChunkModel.Deallocate, EmptyCount;
      assert e in n.chunks by {
        if Reclaims(mid, j) {
          assert e == n.chunks[if i < j then i else i - 1];
        }
      }
      assert InUse(n.chunks, e, k, q);
    }
  }

  /** Returning one block of a chunk leaves every other block in use, so the chunk is not empty then. */
  lemma OtherBlockStays(c: Chunk, p: Addr, k: nat, q: Addr)
    requires ChunkOk(c) && ChunkModel.Deallocate(c, p).1 == Freed && q != p
    ensures var d := ChunkModel.Deallocate(c, p).0;
            InUse([c], c, k, q) ==> InUse([d], d, k, q) && !d.Empty()
  {
    var d := ChunkModel.Deallocate(c, p).0;
    DeallocateOk(c, p);
    Basics(c, p);
    if InUse([c], c, k, q) && d.Empty() {
      EmptyMeansAllFree(d, k);
    }
  }

  // ---- exactly what an allocation does ----

  /** Chunk `j` is the first one with a free block. */
  ghost predicate FirstWithBlock(chunks: seq<Chunk>, j: nat) {
    j < |chunks| && |chunks[j].free| > 0 && forall i :: 0 <= i < j ==> chunks[i].free == []
  }

  ghost predicate NoBlock(chunks: seq<Chunk>) {
    forall i :: 0 <= i < |chunks| ==> chunks[i].free == []
  }

  /** From `m` to `n` chunk `j` gave up the block returned last to it, or its first one never used. */
  ghost predicate TakesBlock(m: Manager, n: Manager, p: Addr, j: nat) {
    && j < |m.chunks| && |m.chunks[j].free| > 0
    && var c := m.chunks[j];
    && p == c.Block(c.free[0]).start
    && n == m.(chunks := m.chunks[j := c.(free := c.free[1..])])
  }

  /** The bytes of a block of the pool: room for a free-list node, rounded to the alignment. */
  function BlockBytes(o: Options): nat {
    Ceiling(Max(o.blockSize, NODE), Max(o.alignment, NODE))
  }

  /** A new chunk can be had: its size is a `size_t`, the provider answers, and there is memory to track it. */
  predicate CanGrow(m: Manager, supply: Supply) {
    BlockBytes(m.opts) * m.next <= SIZE_MAX && supply.answer.Some? && supply.bookkeeping
  }

  /** Behind the chunks of `m` comes a new one with the next number of blocks, of which the first is in use. */
  ghost predicate AddsChunk(m: Manager, n: Manager, storage: Addr) {
    && 1 <= m.next && n.opts == m.opts && n.growths == m.growths + 1
    && n.chunks == m.chunks + [Chunk(storage, BlockBytes(m.opts), m.next, Max(m.opts.alignment, NODE),
        Upwards(1, m.next))]
  }

  ghost predicate AllocateExactly(m: Manager, supply: Supply, n: Manager, p: Addr) {
    && (forall j :: FirstWithBlock(m.chunks, j) ==> p != 0 && TakesBlock(m, n, p, j))
    && (NoBlock(m.chunks) ==>
          if CanGrow(m, supply) then p != 0 && p == supply.answer.value && AddsChunk(m, n, p)
          else p == 0 && n == m)
  }

  lemma NodeIsPower()
    ensures IsPowerOfTwo(NODE)
  {
    assert Pow2(3) == NODE;
    PowerOfTwoTest(NODE);
  }

  /** Growth succeeds exactly when a chunk can be had, and the chunk is as described. */
  lemma GrowsExact(m: Manager, supply: Supply)
    requires ManagerOk(m)
    ensures 1 <= m.next && (Grows(m, supply) <==> CanGrow(m, supply))
    ensures Grows(m, supply) ==>
              Fresh(supply.answer.value, LayoutOf(m).value) ==
              Chunk(supply.answer.value, BlockBytes(m.opts), m.next, Max(m.opts.alignment, NODE), Indices(m.next))
  {
    NodeIsPower();
    GrowthClosedForm(m.opts.growth, m.opts.initialBlocks, m.growths);
    hide SizeAfter, ClosedForm;
    MakeLayoutExact(m.opts.blockSize, m.next, m.opts.alignment, false, NODE, NODE, 0);
    hide MakeLayout, IsPowerOfTwo, Ceiling;
  }

  lemma FirstTaken(count: nat)
    requires count >= 1
    ensures Indices(count)[1..] == Upwards(1, count)
  {
  }

  /**
   An allocation takes a block of the first chunk that has one. Only if none has, it adds a chunk of the next
   size and takes its first block; it fails exactly if such a chunk cannot be had, and then nothing changes.
   */
  lemma AllocateExact(m: Manager, supply: Supply)
    requires ManagerOk(m) && Supplied(m, supply)
    ensures var (n, p) := Allocate(m, supply); AllocateExactly(m, supply, n, p)
  {
    hide LayoutOf, CanGrow, AddsChunk, BlockBytes, Fresh;
    var j := FirstAvailable(m.chunks, 0);
    GrowsExact(m, supply);
    if j < |m.chunks| {
      ChunkModel.AllocateOk(m.chunks[j]);
      hide ManagerOk, ChunkOk;
    } else if Grows(m, supply) {
      AllocateGrown(m, supply);
      hide ManagerOk, Grow, TakeFrom, ChunkModel.Allocate;
    }
  }

  lemma AllocateGrown(m: Manager, supply: Supply)
    requires ManagerOk(m) && Supplied(m, supply) && Grows(m, supply)
    ensures var g := Grow(m, supply);
            && |g.chunks| == |m.chunks| + 1
            && AddsChunk(m, TakeFrom(g, |m.chunks|), supply.answer.value) && supply.answer.value != 0
            && ChunkModel.Allocate(g.chunks[|m.chunks|]).1 == supply.answer.value
  {
    GrowsExact(m, supply);
    FirstTaken(m.next);
    assert supply.answer.value != 0;
    var g := Grow(m, supply);
    hide ManagerOk, Supplied, Grows, LayoutOf, Fresh, BlockBytes, NextSize, Upwards;
    assert TakeFrom(g, |m.chunks|).chunks[..|m.chunks|] == m.chunks;
  }

  // ---- exactly what a free does, by blocks in use ----

  ghost function BlocksInUse(c: Chunk): set<nat> {
    set k: nat | k < c.count && k !in c.free
  }

  /** The chunks beside chunk `j` that have no block in use. */
  ghost function IdleOthers(chunks: seq<Chunk>, j: nat): set<nat> {
    set i: nat | i < |chunks| && i != j && BlocksInUse(chunks[i]) == {}
  }

  /** Chunk `j` is the first around `p`, and `p` is the start of its block `k`, which is in use. */
  ghost predicate FreesBlock(chunks: seq<Chunk>, p: Addr, j: nat, k: nat) {
    && j < |chunks| && InUse(chunks, chunks[j], k, p)
    && forall i :: 0 <= i < j ==> !chunks[i].Owns(p)
  }

  /**
   From `m` to `n` block `k` of chunk `j` went back. The chunk is gone if and only if that was its
   last block in use and at least `spare` other chunks have none; otherwise every chunk is in its place
   and the block is the next one its chunk hands out.
   */
  ghost predicate GivesBack(m: Manager, n: Manager, j: nat, k: nat)
    requires j < |m.chunks|
  {
    var c := m.chunks[j];
    && n.(chunks := m.chunks) == m
    && if BlocksInUse(c) == {k} && |IdleOthers(m.chunks, j)| >= m.opts.spare then
         n.chunks == m.chunks[..j] + m.chunks[j + 1..]
       else
         n.chunks == m.chunks[j := c.(free := [k] + c.free)]
  }

  ghost predicate Frees(chunks: seq<Chunk>, p: Addr) {
    exists j, k :: FreesBlock(chunks, p, j, k)
  }

  /** Chunk `j` is the first around `p`, and `p` is the start of its block `k`, which is free already. */
  ghost predicate FreesAgain(chunks: seq<Chunk>, p: Addr, j: nat, k: nat) {
    && j < |chunks| && k < chunks[j].count && k in chunks[j].free && p == chunks[j].Block(k).start
    && forall i :: 0 <= i < j ==> !chunks[i].Owns(p)
  }

  /**
   The free of `p` succeeds exactly on the start of a block in use, and then gives back that block; it
   is a double free exactly on the start of a free one.
   */
  ghost predicate FreeExact(m: Manager, p: Addr, n: Manager, r: FreeResult) {
    && (r == NullIgnored <==> p == 0)
    && (r == Freed <==> Frees(m.chunks, p))
    && (r == DoubleFree <==> exists j, k :: FreesAgain(m.chunks, p, j, k))
    && (r != Freed ==> n == m)
    && forall j, k :: FreesBlock(m.chunks, p, j, k) ==> GivesBack(m, n, j, k)
  }

  /** Every chunk is well formed. */
  ghost predicate WellFormed(chunks: seq<Chunk>) {
    forall j :: 0 <= j < |chunks| ==> ChunkOk(chunks[j]) && chunks[j].stride != 0
  }

  lemma EmptyIsIdle(c: Chunk)
    requires ChunkOk(c)
    ensures c.Empty() <==> BlocksInUse(c) == {}
  {
    if c.Empty() {
      forall k: nat | k < c.count
        ensures k in c.free
      {
        EmptyMeansAllFree(c, k);
      }
    } else {
      FreeAtMost(c);
      if BlocksInUse(c) == {} {
        var all := set i | 0 <= i < c.count :: Indices(c.count)[i];
        var s := set i | 0 <= i < |c.free| :: c.free[i];
        assert all <= s by {
          forall k | k in all
            ensures k in s
          {
            assert k !in BlocksInUse(c) && k in c.free;
          }
        }
        SubsetSize(all, s);
        DistinctSize(Indices(c.count), c.count);
        DistinctSize(c.free, |c.free|);
      }
    }
  }

  lemma {:induction false} SubsetSize(a: set<nat>, b: set<nat>)
    requires a <= b
    ensures |a| <= |b|
  {
    if a != {} {
      var x :| x in a;
      SubsetSize(a - {x}, b - {x});
    }
  }

  /** Counting empty chunks one by one gives the number of chunks without a block in use. */
  lemma {:induction false} EmptyCountIsIdle(chunks: seq<Chunk>)
    requires WellFormed(chunks)
    ensures EmptyCount(chunks) == |IdleOthers(chunks, |chunks|)|
    decreases |chunks|
  {
    if |chunks| > 0 {
      var n := |chunks| - 1;
      var rest := chunks[..n];
      EmptyCountIsIdle(rest);
      EmptyIsIdle(chunks[n]);
      hide ChunkOk, WellFormed, BlocksInUse;
      IdleLast(chunks);
    }
  }

  lemma IdleLast(chunks: seq<Chunk>)
    requires |chunks| > 0
    ensures var n := |chunks| - 1;
            && IdleOthers(chunks, n + 1) ==
                 IdleOthers(chunks[..n], n) + (if BlocksInUse(chunks[n]) == {} then {n} else {})
            && n !in IdleOthers(chunks[..n], n)
  {
    hide BlocksInUse;
    var n := |chunks| - 1;
    assert forall i :: 0 <= i < n ==> chunks[..n][i] == chunks[i];
  }

  /** With chunk `j` the only one changed, the idle others are as before. */
  lemma IdleBeside(chunks: seq<Chunk>, j: nat, d: Chunk)
    requires j < |chunks| && ChunkOk(d) && WellFormed(chunks)
    ensures EmptyCount(chunks[j := d]) == |IdleOthers(chunks, j)| + if BlocksInUse(d) == {} then 1 else 0
  {
    var after := chunks[j := d];
    EmptyCountIsIdle(after);
    hide *;
    IdleSwap(chunks, j, d);
  }

  lemma IdleSwap(chunks: seq<Chunk>, j: nat, d: Chunk)
    requires j < |chunks|
    ensures j !in IdleOthers(chunks, j)
    ensures IdleOthers(chunks[j := d], |chunks|) == IdleOthers(chunks, j) + (if BlocksInUse(d) == {} then {j} else {})
  {
    hide BlocksInUse;
  }

  lemma ReturnedBlock(c: Chunk, k: nat, p: Addr)
    requires ChunkOk(c) && InUse([c], c, k, p)
    ensures c.Owns(p) && p != 0 && ChunkModel.Deallocate(c, p) == (c.(free := [k] + c.free), Freed)
    ensures ChunkOk(c.(free := [k] + c.free))
    ensures BlocksInUse(c.(free := [k] + c.free)) == BlocksInUse(c) - {k}
  {
    IndexOfBlock(c, k);
    DeallocateOk(c, p);
  }

  /** A free does exactly this, whatever the state of the pool. */
  lemma DeallocateExact(m: Manager, p: Addr)
    requires WellFormed(m.chunks)
    ensures var (n, r) := Deallocate(m, p); FreeExact(m, p, n, r)
  {
    var (n, r) := Deallocate(m, p);
    forall j: nat, k: nat | FreesBlock(m.chunks, p, j, k)
      ensures r == Freed && GivesBack(m, n, j, k)
    {
      FreedThere(m, p, j, k);
    }
    forall j: nat, k: nat | FreesAgain(m.chunks, p, j, k)
      ensures r == DoubleFree
    {
      RefusedThere(m, p, j, k);
    }
    hide GivesBack;
    if r == Freed || r == DoubleFree {
      var j := FindChunk(m.chunks, p, 0);
      var c := m.chunks[j];
      BlockStartExact(c, p);
      hide ChunkOk;
      assert r == Freed ==> FreesBlock(m.chunks, p, j, c.IndexOf(p));
      assert r == DoubleFree ==> FreesAgain(m.chunks, p, j, c.IndexOf(p));
    }
  }

  lemma RefusedThere(m: Manager, p: Addr, j: nat, k: nat)
    requires WellFormed(m.chunks) && FreesAgain(m.chunks, p, j, k)
    ensures Deallocate(m, p) == (m, DoubleFree)
  {
    IndexOfBlock(m.chunks[j], k);
    assert FindChunk(m.chunks, p, 0) == j;
  }

  lemma FreedThere(m: Manager, p: Addr, j: nat, k: nat)
    requires WellFormed(m.chunks)
    requires FreesBlock(m.chunks, p, j, k)
    ensures var (n, r) := Deallocate(m, p); r == Freed && GivesBack(m, n, j, k)
  {
    var c := m.chunks[j];
    var d := c.(free := [k] + c.free);
    ReturnedBlock(c, k, p);
    assert FindChunk(m.chunks, p, 0) == j;
    EmptyIsIdle(d);
    IdleBeside(m.chunks, j, d);
    assert k in BlocksInUse(c);
    assert BlocksInUse(d) == {} <==> BlocksInUse(c) == {k};
    hide ChunkOk, BlocksInUse, EmptyCount, IdleOthers, FindChunk;
  }

  // ---- whole runs of a pool ----

  datatype PoolOp = Alloc(supply: Supply) | Free(p: Addr)

  /**
   Until the first successful allocation a pool is its one fresh chunk; from then on its empty
   chunks are within the spare count.
   */
  ghost predicate Tidy(m: Manager, started: bool) {
    && ManagerOk(m)
    && (if started then EmptyCount(m.chunks) <= m.opts.spare else |m.chunks| == 1 && m.chunks[0].Empty())
  }

  /** The manager before its constructor has grown it. */
  function Unbuilt(o: Options): Manager {
    Manager(o, [], o.initialBlocks, 0)
  }

  /** The constructor grows once, to its initial number of blocks. */
  lemma NewPoolTidy(o: Options, supply: Supply)
    requires Usable(o) && IsPowerOfTwo(o.alignment) && Supplied(Unbuilt(o), supply) && Grows(Unbuilt(o), supply)
    ensures Tidy(Grow(Unbuilt(o), supply), false) && ManagerOkForRun(Grow(Unbuilt(o), supply))
  {
    GrowOk(Unbuilt(o), supply);
  }

  function Step(m: Manager, started: bool, op: PoolOp): (Manager, bool)
    requires Usable(m.opts) && forall j :: 0 <= j < |m.chunks| ==> m.chunks[j].stride != 0
  {
    match op
    case Alloc(supply) => var (n, p) := Allocate(m, supply); (n, started || p != 0)
    case Free(p) => (Deallocate(m, p).0, started)
  }

  lemma AllocateTidy(m: Manager, started: bool, supply: Supply)
    requires Tidy(m, started) && Supplied(m, supply)
    ensures var (n, p) := Allocate(m, supply); Tidy(n, started || p != 0)
  {
    var j := FirstAvailable(m.chunks, 0);
    if j < |m.chunks| {
      TakeOk(m, j);
      ChunkModel.AllocateOk(m.chunks[j]);
      hide ManagerOk, ChunkModel.Allocate, ChunkOk;
      if !started {
        assert m.chunks[..0] == [];
      }
    } else if Grows(m, supply) {
      GrowOk(m, supply);
      var g := Grow(m, supply);
      TakeOk(g, |m.chunks|);
      assert started;
    }
  }

  lemma DeallocateTidy(m: Manager, started: bool, p: Addr)
    requires Tidy(m, started)
    ensures Tidy(Deallocate(m, p).0, started)
  {
    var (n, r) := Deallocate(m, p);
    if r == Freed {
      var j := FindChunk(m.chunks, p, 0);
      var c := m.chunks[j];
      var d := ChunkModel.Deallocate(c, p).0;
      DeallocateOk(c, p);
      assert !c.Empty() by {
        if c.Empty() { EmptyMeansAllFree(c, c.IndexOf(p)); }
      }
      EmptyCountUpdate(m.chunks, j, d);
      var mid := Returned(m, j, p);
      EmptyCountWithout(mid.chunks, j);
      assert ManagerOk(n);
    }
  }

  function RunPool(m: Manager, started: bool, ops: seq<PoolOp>): (Manager, bool)
    requires ManagerOkForRun(m)
    decreases |ops|
  {
    if |ops| == 0 then (m, started)
    else
      var (n, b) := Step(m, started, ops[0]);
      if ManagerOkForRun(n) then RunPool(n, b, ops[1..]) else (n, b)
  }

  predicate ManagerOkForRun(m: Manager) {
    Usable(m.opts) && forall j :: 0 <= j < |m.chunks| ==> m.chunks[j].stride != 0
  }

  ghost predicate SuppliedRun(m: Manager, started: bool, ops: seq<PoolOp>)
    requires ManagerOkForRun(m)
    decreases |ops|
  {
    |ops| == 0 ||
    (&& (ops[0].Alloc? ==> Supplied(m, ops[0].supply))
     && var (n, b) := Step(m, started, ops[0]);
     && (ManagerOkForRun(n) ==> SuppliedRun(n, b, ops[1..])))
  }

  /**
   In every run of a growing pool from its construction, once an allocation has succeeded
   the number of completely free chunks never exceeds `spare_empty_chunks`.
   */
  lemma SpareChunksBound(o: Options, first: Supply, ops: seq<PoolOp>)
    requires Usable(o) && IsPowerOfTwo(o.alignment)
    requires Grows(Unbuilt(o), first) && Supplied(Unbuilt(o), first)
    requires var built := Grow(Unbuilt(o), first); ManagerOkForRun(built) ==> SuppliedRun(built, false, ops)
    ensures var built := Grow(Unbuilt(o), first);
            && ManagerOkForRun(built)
            && var (n, succeeded) := RunPool(built, false, ops);
            && ManagerOk(n) && (succeeded ==> EmptyCount(n.chunks) <= n.opts.spare)
  {
    NewPoolTidy(o, first);
    TidyRun(Grow(Unbuilt(o), first), false, ops);
  }

  lemma {:induction false} TidyRun(m: Manager, started: bool, ops: seq<PoolOp>)
    requires Tidy(m, started) && SuppliedRun(m, started, ops)
    ensures var (n, b) := RunPool(m, started, ops);
            ManagerOk(n) && (b ==> EmptyCount(n.chunks) <= n.opts.spare)
    decreases |ops|
  {
    if |ops| > 0 {
      var (n, b) := Step(m, started, ops[0]);
      match ops[0] {
        case Alloc(supply) => AllocateTidy(m, started, supply);
        case Free(p) => DeallocateTidy(m, started, p);
      }
      hide EmptyCount, Step;
      TidyRun(n, b, ops[1..]);
    }
  }
}
