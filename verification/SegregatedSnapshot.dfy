/**
 The geometry of the segregated allocator: which chunks, direct allocations and live
 addresses there are, independent of the order in which pools list their chunks.
 */
module SegregatedSnapshot {
  import opened Bits
  import SizeClasses
  import opened Provider
  import opened ChunkModel
  import opened SegregatedModel

  type Placed = (nat, Chunk)

  datatype Snapshot = Snapshot(
    classes: seq<nat>,
    chunks: set<Placed>,
    fallback: map<Addr, Lease>,
    out: map<Addr, Lease>,
    live: map<Addr, Request>)

  ghost predicate LeaseOk(a: Addr, l: Lease) {
    a != 0 && l.bytes >= 1 && l.alignment != 0 && a % l.alignment == 0 && a + l.bytes <= SIZE_LIMIT
  }

  ghost predicate PlacedOk(v: Snapshot, x: Placed) {
    && x.0 < |v.classes|
    && ChunkOk(x.1)
    && x.1.stride == v.classes[x.0] && x.1.alignment == v.classes[x.0]
    && x.1.storage in v.out && v.out[x.1.storage] == ChunkLease(x.1)
    && x.1.storage !in v.fallback
  }

  /** The outstanding provider allocation at `a` is a chunk or a tracked direct allocation. */
  ghost predicate Backed(v: Snapshot, a: Addr) {
    a in v.fallback || exists x: Placed :: x in v.chunks && x.1.storage == a
  }

  ghost predicate InUseAt(v: Snapshot, x: Placed, k: nat, p: Addr) {
    x in v.chunks && k < x.1.count && k !in x.1.free && p == x.1.Block(k).start
  }

  /** The request is routed to class `i`, which can hold it. */
  predicate Suits(classes: seq<nat>, i: nat, r: Request)
    requires i < |classes|
  {
    && 1 <= r.size <= classes[i] && r.alignment != 0 && classes[i] % r.alignment == 0
    && SizeClasses.Select(classes, r.size, r.alignment) == SizeClasses.Selected(i)
  }

  ghost predicate Pooled(v: Snapshot, p: Addr, r: Request) {
    exists x: Placed, k: nat :: InUseAt(v, x, k, p) && x.0 < |v.classes| && Suits(v.classes, x.0, r)
  }

  ghost predicate Homed(v: Snapshot, p: Addr)
    requires p in v.live
  {
    (p in v.fallback && v.fallback[p] == Lease(v.live[p].size, v.live[p].alignment)) || Pooled(v, p, v.live[p])
  }

  ghost predicate LedgerOk(v: Snapshot) {
    && (forall a :: a in v.out ==> LeaseOk(a, v.out[a]))
    && (forall a, b :: a in v.out && b in v.out && a != b ==>
        Apart(LeasedRegion(a, v.out[a]), LeasedRegion(b, v.out[b])))
    && (forall a :: a in v.out ==> Backed(v, a))
    && (forall a :: a in v.fallback ==> a in v.out && v.out[a] == v.fallback[a])
  }

  ghost predicate ChunksOk(v: Snapshot) {
    && (forall x :: x in v.chunks ==> PlacedOk(v, x))
    && (forall x, y :: x in v.chunks && y in v.chunks && x.1.storage == y.1.storage ==> x == y)
  }

  ghost predicate LiveOk(v: Snapshot) {
    && (forall p :: p in v.live ==> Homed(v, p))
    && (forall x: Placed, k: nat, p :: InUseAt(v, x, k, p) ==> p in v.live)
    && (forall a :: a in v.fallback ==> a in v.live)
  }

  ghost predicate Ok(v: Snapshot) {
    LedgerOk(v) && ChunksOk(v) && LiveOk(v)
  }

  // ---- distinct blocks are apart ----

  lemma ChunkRegions(v: Snapshot, x: Placed)
    requires ChunksOk(v) && x in v.chunks
    ensures x.1.storage in v.out && LeasedRegion(x.1.storage, v.out[x.1.storage]) == x.1.Whole()
  {
    assert PlacedOk(v, x);
  }

  lemma BlocksOfChunksApart(v: Snapshot, x: Placed, k: nat, y: Placed, l: nat)
    requires LedgerOk(v) && ChunksOk(v) && x in v.chunks && y in v.chunks && k < x.1.count && l < y.1.count
    requires x != y || k != l
    ensures Apart(x.1.Block(k), y.1.Block(l)) && x.1.Block(k).start != y.1.Block(l).start
  {
    assert PlacedOk(v, x) && PlacedOk(v, y);
    if x == y {
      BlocksApart(x.1, k, l);
    } else {
      ChunkRegions(v, x);
      ChunkRegions(v, y);
      BlockInside(x.1, k);
      BlockInside(y.1, l);
      assert Apart(x.1.Whole(), y.1.Whole());
    }
  }

  lemma BlockAndDirectApart(v: Snapshot, x: Placed, k: nat, a: Addr)
    requires LedgerOk(v) && ChunksOk(v) && x in v.chunks && k < x.1.count && a in v.fallback
    ensures Apart(x.1.Block(k), LeasedRegion(a, v.fallback[a])) && x.1.Block(k).start != a
  {
    assert PlacedOk(v, x) && LeaseOk(a, v.out[a]);
    ChunkRegions(v, x);
    BlockInside(x.1, k);
    assert Apart(x.1.Whole(), LeasedRegion(a, v.fallback[a]));
  }

  /** The bytes a client asked for at `p`. */
  function Bytes(p: Addr, r: Request): Region {
    Region(p, r.size)
  }

  lemma PooledRegion(v: Snapshot, p: Addr, r: Request) returns (x: Placed, k: nat)
    requires ChunksOk(v) && Pooled(v, p, r)
    ensures InUseAt(v, x, k, p) && x.0 < |v.classes| && Suits(v.classes, x.0, r)
    ensures Inside(Bytes(p, r), x.1.Block(k)) && p % r.alignment == 0
  {
    hide SizeClasses.Select;
    var y: Placed, l: nat :| InUseAt(v, y, l, p) && y.0 < |v.classes| && Suits(v.classes, y.0, r);
    assert PlacedOk(v, y);
    AlignedBlock(y.1, l);
    ModTransitive(p, r.alignment, v.classes[y.0]);
    return y, l;
  }

  /** Live allocations are aligned as requested and occupy pairwise disjoint regions of the requested size. */
  lemma LiveAllocationsDisjoint(v: Snapshot, p: Addr, q: Addr)
    requires Ok(v) && p in v.live && q in v.live && p != q
    ensures v.live[p].alignment != 0 && p % v.live[p].alignment == 0
    ensures Apart(Bytes(p, v.live[p]), Bytes(q, v.live[q]))
  {
    assert Homed(v, p) && Homed(v, q);
    hide LiveOk, Homed, Pooled;
    if p in v.fallback && v.fallback[p] == Lease(v.live[p].size, v.live[p].alignment) {
      assert LeaseOk(p, v.out[p]);
      if !(q in v.fallback && v.fallback[q] == Lease(v.live[q].size, v.live[q].alignment)) {
        assert Pooled(v, q, v.live[q]);
        var y, l := PooledRegion(v, q, v.live[q]);
        BlockAndDirectApart(v, y, l, p);
      }
    } else {
      assert Pooled(v, p, v.live[p]);
      var x, k := PooledRegion(v, p, v.live[p]);
      if q in v.fallback && v.fallback[q] == Lease(v.live[q].size, v.live[q].alignment) {
        BlockAndDirectApart(v, x, k, q);
      } else {
        assert Pooled(v, q, v.live[q]);
        var y, l := PooledRegion(v, q, v.live[q]);
        BlocksOfChunksApart(v, x, k, y, l);
      }
    }
  }

  // ---- steps ----

  /** The same chunk with another free stack. */
  ghost predicate Restacked(x: Placed, y: Placed) {
    y.0 == x.0 && y.1 == x.1.(free := y.1.free) && ChunkOk(y.1)
  }

  lemma RestackedBlocks(x: Placed, y: Placed, k: nat)
    requires Restacked(x, y)
    ensures y.1.Block(k) == x.1.Block(k) && y.1.count == x.1.count && ChunkLease(y.1) == ChunkLease(x.1)
  {
  }

  function Swap(v: Snapshot, x: Placed, y: Placed, live: map<Addr, Request>): Snapshot {
    v.(chunks := v.chunks - {x} + {y}, live := live)
  }

  lemma SwapLedger(v: Snapshot, x: Placed, y: Placed, live: map<Addr, Request>)
    requires LedgerOk(v) && ChunksOk(v) && x in v.chunks && Restacked(x, y)
    ensures LedgerOk(Swap(v, x, y, live)) && ChunksOk(Swap(v, x, y, live))
  {
    var n := Swap(v, x, y, live);
    RestackedBlocks(x, y, 0);
    forall a | a in n.out
      ensures Backed(n, a)
    {
      assert Backed(v, a);
      if a !in v.fallback {
        var z: Placed :| z in v.chunks && z.1.storage == a;
        assert (if z == x then y else z) in n.chunks;
      }
    }
    forall z | z in n.chunks
      ensures PlacedOk(n, z)
    {
      assert PlacedOk(v, if z == y then x else z);
    }
    forall z, u | z in n.chunks && u in n.chunks && z.1.storage == u.1.storage
      ensures z == u
    {
      assert (if z == y then x else z) in v.chunks && (if u == y then x else u) in v.chunks;
    }
  }

  /** Wherever `q` was in use in `v`, it still is in `n`. */
  ghost predicate UseCarries(v: Snapshot, n: Snapshot, q: Addr) {
    forall z: Placed, l: nat :: InUseAt(v, z, l, q) ==> exists u: Placed :: u.0 == z.0 && InUseAt(n, u, l, q)
  }

  lemma HomeKept(v: Snapshot, n: Snapshot, q: Addr)
    requires q in v.live && q in n.live && n.live[q] == v.live[q] && Homed(v, q)
    requires n.classes == v.classes && UseCarries(v, n, q)
    requires q in v.fallback ==> q in n.fallback && n.fallback[q] == v.fallback[q]
    ensures Homed(n, q)
  {
    hide Suits;
    if !(q in v.fallback && v.fallback[q] == Lease(v.live[q].size, v.live[q].alignment)) {
      var z: Placed, l: nat :| InUseAt(v, z, l, q) && z.0 < |v.classes| && Suits(v.classes, z.0, v.live[q]);
      var u: Placed :| u.0 == z.0 && InUseAt(n, u, l, q);
      assert InUseAt(n, u, l, q) && u.0 < |n.classes| && Suits(n.classes, u.0, n.live[q]);
    }
  }

  /** After the swap exactly the blocks the new stack leaves out are in use. */
  lemma SwapUse(v: Snapshot, x: Placed, y: Placed, live: map<Addr, Request>, z: Placed, l: nat, q: Addr)
    requires x in v.chunks && Restacked(x, y)
    ensures var n := Swap(v, x, y, live);
            && (InUseAt(v, z, l, q) && z != x ==> InUseAt(n, z, l, q))
            && (InUseAt(v, x, l, q) && l !in y.1.free ==> InUseAt(n, y, l, q))
            && (InUseAt(n, z, l, q) && z != y ==> InUseAt(v, z, l, q))
            && (InUseAt(n, y, l, q) && l !in x.1.free ==> InUseAt(v, x, l, q))
  {
    RestackedBlocks(x, y, l);
  }

  lemma SwapCarries(v: Snapshot, x: Placed, y: Placed, live: map<Addr, Request>, q: Addr)
    requires x in v.chunks && Restacked(x, y)
    requires forall l: nat :: InUseAt(v, x, l, q) ==> l !in y.1.free
    ensures UseCarries(v, Swap(v, x, y, live), q)
  {
    var n := Swap(v, x, y, live);
    forall z: Placed, l: nat | InUseAt(v, z, l, q)
      ensures exists u: Placed :: u.0 == z.0 && InUseAt(n, u, l, q)
    {
      SwapUse(v, x, y, live, z, l, q);
      assert (if z == x then y else z).0 == z.0;
    }
  }

  /** A free block's address is not live. */
  lemma NotLive(v: Snapshot, x: Placed, k: nat, p: Addr)
    requires Ok(v) && x in v.chunks && k < x.1.count && k in x.1.free && p == x.1.Block(k).start
    ensures p !in v.live && p !in v.fallback
  {
    hide Suits;
    if p in v.fallback {
      BlockAndDirectApart(v, x, k, p);
    } else if p in v.live {
      assert Homed(v, p);
      assert Pooled(v, p, v.live[p]);
      var z, l := PooledRegion(v, p, v.live[p]);
      BlocksOfChunksApart(v, x, k, z, l);
    }
  }

  /** Handing out a free block of a chunk: its address was not live, and all stays in order. */
  lemma TakeBlock(v: Snapshot, x: Placed, y: Placed, k: nat, p: Addr, r: Request)
    requires Ok(v) && x in v.chunks && Restacked(x, y) && x.0 < |v.classes| && Suits(v.classes, x.0, r)
    requires k < x.1.count && k in x.1.free && k !in y.1.free && p == x.1.Block(k).start
    requires forall l :: l != k ==> (l in y.1.free <==> l in x.1.free)
    ensures p !in v.live
    ensures Ok(Swap(v, x, y, v.live[p := r]))
  {
    NotLive(v, x, k, p);
    SwapLedger(v, x, y, v.live[p := r]);
    TakeLive(v, x, y, k, p, r);
    hide *;
    JoinedOk(Swap(v, x, y, v.live[p := r]));
  }

  lemma JoinedOk(v: Snapshot)
    requires LedgerOk(v) && ChunksOk(v) && LiveOk(v)
    ensures Ok(v)
  {
  }

  lemma TakeLive(v: Snapshot, x: Placed, y: Placed, k: nat, p: Addr, r: Request)
    requires LiveOk(v) && x in v.chunks && Restacked(x, y) && x.0 < |v.classes| && Suits(v.classes, x.0, r)
    requires k < x.1.count && k in x.1.free && k !in y.1.free && p == x.1.Block(k).start
    requires forall l :: l != k ==> (l in y.1.free <==> l in x.1.free)
    ensures LiveOk(Swap(v, x, y, v.live[p := r]))
  {
    hide Suits;
    var n := Swap(v, x, y, v.live[p := r]);
    assert Pooled(n, p, r) by {
      RestackedBlocks(x, y, k);
      assert InUseAt(n, y, k, p);
    }
    forall q | q in n.live && q != p
      ensures Homed(n, q)
    {
      hide Restacked;
      assert Homed(v, q);
      SwapCarries(v, x, y, n.live, q);
      HomeKept(v, n, q);
    }
    forall z: Placed, l: nat, q | InUseAt(n, z, l, q)
      ensures q in n.live
    {
      SwapUse(v, x, y, n.live, z, l, q);
      RestackedBlocks(x, y, l);
    }
  }

  /** Only block `k` of `x` has its address. */
  lemma SoleUser(v: Snapshot, x: Placed, k: nat, p: Addr)
    requires LedgerOk(v) && ChunksOk(v) && x in v.chunks && k < x.1.count && p == x.1.Block(k).start
    ensures p !in v.fallback
    ensures forall z: Placed, l: nat :: InUseAt(v, z, l, p) ==> z == x && l == k
  {
    hide LedgerOk, ChunksOk;
    if p in v.fallback {
      BlockAndDirectApart(v, x, k, p);
    }
    forall z: Placed, l: nat | InUseAt(v, z, l, p)
      ensures z == x && l == k
    {
      if z != x || l != k {
        BlocksOfChunksApart(v, x, k, z, l);
      }
    }
  }

  lemma ReturnLive(v: Snapshot, x: Placed, y: Placed, k: nat, p: Addr)
    requires LiveOk(v) && x in v.chunks && Restacked(x, y) && p !in v.fallback
    requires k < x.1.count && k !in x.1.free && y.1.free == [k] + x.1.free
    requires forall z: Placed, l: nat :: InUseAt(v, z, l, p) ==> z == x && l == k
    requires InUseAt(v, x, k, p)
    ensures LiveOk(Swap(v, x, y, v.live - {p}))
  {
    hide Suits;
    var n := Swap(v, x, y, v.live - {p});
    forall q | q in n.live
      ensures Homed(n, q)
    {
      assert Homed(v, q);
      assert forall l: nat :: InUseAt(v, x, l, q) ==> l != k;
      SwapCarries(v, x, y, n.live, q);
      HomeKept(v, n, q);
    }
    forall z: Placed, l: nat, q | InUseAt(n, z, l, q)
      ensures q in n.live
    {
      SwapUse(v, x, y, n.live, z, l, q);
      RestackedBlocks(x, y, l);
    }
  }

  /** Taking a block back. */
  lemma ReturnBlock(v: Snapshot, x: Placed, y: Placed, k: nat, p: Addr)
    requires Ok(v) && x in v.chunks && Restacked(x, y)
    requires k < x.1.count && k !in x.1.free && p == x.1.Block(k).start && y.1.free == [k] + x.1.free
    ensures p in v.live && p !in v.fallback
    ensures Ok(Swap(v, x, y, v.live - {p}))
  {
    assert InUseAt(v, x, k, p) && p in v.live;
    hide LedgerOk, ChunksOk, LiveOk, Restacked;
    SoleUser(v, x, k, p);
    SwapLedger(v, x, y, v.live - {p});
    ReturnLive(v, x, y, k, p);
  }

  /** The same blocks in use, the same requests: live addresses keep their homes. */
  lemma SameUse(v: Snapshot, n: Snapshot)
    requires LiveOk(v) && n.classes == v.classes && n.live == v.live && n.fallback == v.fallback
    requires forall z: Placed, l: nat, q :: InUseAt(n, z, l, q) <==> InUseAt(v, z, l, q)
    ensures LiveOk(n)
  {
    hide Suits;
    forall q | q in n.live
      ensures Homed(n, q)
    {
      assert Homed(v, q);
      HomeKept(v, n, q);
    }
  }

  lemma NotOutstanding(v: Snapshot, lease: Lease, a: Addr)
    requires LedgerOk(v) && lease.alignment != 0 && lease.bytes >= 1 && MayAnswer(v.out, lease, Some(a))
    ensures a !in v.out && a !in v.fallback
  {
    assert a in v.out ==> LeaseOk(a, v.out[a]);
  }

  // chunks come and go

  function WithChunk(v: Snapshot, x: Placed): Snapshot {
    v.(chunks := v.chunks + {x}, out := v.out[x.1.storage := ChunkLease(x.1)])
  }

  ghost predicate NewChunk(v: Snapshot, x: Placed) {
    && x.0 < |v.classes| && ChunkOk(x.1) && x.1.stride == v.classes[x.0] && x.1.alignment == v.classes[x.0]
    && (forall k :: 0 <= k < x.1.count ==> k in x.1.free)
    && ChunkLease(x.1).bytes >= 1 && MayAnswer(v.out, ChunkLease(x.1), Some(x.1.storage))
  }

  lemma AddChunkLedger(v: Snapshot, x: Placed)
    requires LedgerOk(v) && NewChunk(v, x) && x.1.storage !in v.out
    ensures LedgerOk(WithChunk(v, x))
  {
    var n, a := WithChunk(v, x), x.1.storage;
    assert LeaseOk(a, ChunkLease(x.1)) && x in n.chunks;
    forall b | b in n.out
      ensures Backed(n, b)
    {
      assert b != a ==> Backed(v, b);
    }
  }

  lemma AddChunkChunks(v: Snapshot, x: Placed)
    requires ChunksOk(v) && NewChunk(v, x) && x.1.storage !in v.out && x.1.storage !in v.fallback
    ensures ChunksOk(WithChunk(v, x))
  {
    var n := WithChunk(v, x);
    forall z | z in n.chunks
      ensures PlacedOk(n, z) && (z != x ==> z.1.storage != x.1.storage)
    {
      assert z != x ==> PlacedOk(v, z);
    }
  }

  /** A new chunk, completely free, in storage the provider just handed out. */
  lemma AddChunk(v: Snapshot, x: Placed)
    requires Ok(v) && NewChunk(v, x)
    ensures x.1.storage !in v.out && Ok(WithChunk(v, x))
  {
    hide Suits;
    NotOutstanding(v, ChunkLease(x.1), x.1.storage);
    var n := WithChunk(v, x);
    assert forall z: Placed, l: nat, q :: InUseAt(n, z, l, q) <==> InUseAt(v, z, l, q);
    hide LedgerOk, ChunksOk, LiveOk, NewChunk;
    AddChunkLedger(v, x);
    AddChunkChunks(v, x);
    SameUse(v, n);
  }

  function WithoutChunk(v: Snapshot, x: Placed): Snapshot {
    v.(chunks := v.chunks - {x}, out := v.out - {x.1.storage})
  }

  lemma DropChunkLedger(v: Snapshot, x: Placed)
    requires LedgerOk(v) && ChunksOk(v) && x in v.chunks
    ensures LedgerOk(WithoutChunk(v, x))
  {
    var n := WithoutChunk(v, x);
    assert PlacedOk(v, x);
    forall b | b in n.out
      ensures Backed(n, b)
    {
      assert Backed(v, b);
      if b !in v.fallback {
        var z: Placed :| z in v.chunks && z.1.storage == b;
        assert z in n.chunks;
      }
    }
  }

  lemma DropChunkChunks(v: Snapshot, x: Placed)
    requires ChunksOk(v) && x in v.chunks
    ensures ChunksOk(WithoutChunk(v, x))
  {
    var n := WithoutChunk(v, x);
    forall z | z in n.chunks
      ensures PlacedOk(n, z)
    {
      assert PlacedOk(v, z);
    }
  }

  /** Giving back a chunk in which nothing is in use. */
  lemma DropChunk(v: Snapshot, x: Placed)
    requires Ok(v) && x in v.chunks
    requires forall k :: 0 <= k < x.1.count ==> k in x.1.free
    ensures x.1.storage in v.out && v.out[x.1.storage] == ChunkLease(x.1)
    ensures Ok(WithoutChunk(v, x))
  {
    hide Suits;
    assert PlacedOk(v, x);
    var n := WithoutChunk(v, x);
    assert forall z: Placed, l: nat, q :: InUseAt(n, z, l, q) <==> InUseAt(v, z, l, q);
    hide LedgerOk, ChunksOk, LiveOk;
    DropChunkLedger(v, x);
    DropChunkChunks(v, x);
    SameUse(v, n);
  }

  // direct allocations come and go

  lemma OtherHomes(v: Snapshot, n: Snapshot, a: Addr)
    requires LiveOk(v) && n.classes == v.classes && n.chunks == v.chunks
    requires forall q :: q != a && q in v.fallback ==> q in n.fallback && n.fallback[q] == v.fallback[q]
    requires forall q :: q != a && q in n.live ==> q in v.live && n.live[q] == v.live[q]
    ensures forall q :: q in n.live && q != a ==> Homed(n, q)
  {
    hide Suits;
    forall q | q in n.live && q != a
      ensures Homed(n, q)
    {
      assert Homed(v, q);
      assert forall z: Placed, l: nat :: InUseAt(v, z, l, q) ==> InUseAt(n, z, l, q);
      HomeKept(v, n, q);
    }
  }

  lemma NoUserInside(v: Snapshot, lease: Lease, a: Addr, z: Placed, l: nat)
    requires ChunksOk(v) && lease.alignment != 0 && lease.bytes >= 1 && MayAnswer(v.out, lease, Some(a))
    ensures !InUseAt(v, z, l, a)
  {
    if z in v.chunks && l < z.1.count {
      assert PlacedOk(v, z);
      ChunkRegions(v, z);
      BlockInside(z.1, l);
    }
  }

  lemma DirectNotLive(v: Snapshot, lease: Lease, a: Addr)
    requires Ok(v) && lease.alignment != 0 && lease.bytes >= 1 && MayAnswer(v.out, lease, Some(a))
    ensures a !in v.live
  {
    hide Suits;
    NotOutstanding(v, lease, a);
    forall z: Placed, l: nat
      ensures !InUseAt(v, z, l, a)
    {
      NoUserInside(v, lease, a, z, l);
    }
    assert a in v.live ==> Homed(v, a);
  }

  function WithDirect(v: Snapshot, a: Addr, r: Request): Snapshot {
    var lease := Lease(r.size, r.alignment);
    v.(fallback := v.fallback[a := lease], out := v.out[a := lease], live := v.live[a := r])
  }

  lemma AddDirectLedger(v: Snapshot, a: Addr, r: Request)
    requires LedgerOk(v) && r.size >= 1 && r.alignment != 0 && a !in v.out
    requires MayAnswer(v.out, Lease(r.size, r.alignment), Some(a))
    ensures LedgerOk(WithDirect(v, a, r))
  {
    var n := WithDirect(v, a, r);
    assert LeaseOk(a, Lease(r.size, r.alignment));
    forall b | b in n.out
      ensures Backed(n, b)
    {
      assert b != a ==> Backed(v, b);
    }
  }

  lemma AddDirectChunks(v: Snapshot, a: Addr, r: Request)
    requires ChunksOk(v) && a !in v.out
    ensures ChunksOk(WithDirect(v, a, r))
  {
    forall z | z in v.chunks
      ensures PlacedOk(WithDirect(v, a, r), z)
    {
      assert PlacedOk(v, z);
    }
  }

  lemma AddDirectLive(v: Snapshot, a: Addr, r: Request)
    requires LiveOk(v)
    ensures LiveOk(WithDirect(v, a, r))
  {
    hide Suits;
    var n := WithDirect(v, a, r);
    OtherHomes(v, n, a);
    assert forall z: Placed, l: nat, q :: InUseAt(n, z, l, q) ==> InUseAt(v, z, l, q);
  }

  /** A direct allocation from the provider. */
  lemma AddDirect(v: Snapshot, a: Addr, r: Request)
    requires Ok(v) && r.size >= 1 && r.alignment != 0
    requires MayAnswer(v.out, Lease(r.size, r.alignment), Some(a))
    ensures a !in v.out && a !in v.fallback && a !in v.live
    ensures Ok(WithDirect(v, a, r))
  {
    hide LedgerOk, ChunksOk, LiveOk, MayAnswer;
    NotOutstanding(v, Lease(r.size, r.alignment), a);
    DirectNotLive(v, Lease(r.size, r.alignment), a);
    AddDirectLedger(v, a, r);
    AddDirectChunks(v, a, r);
    AddDirectLive(v, a, r);
  }

  function WithoutDirect(v: Snapshot, a: Addr): Snapshot {
    v.(fallback := v.fallback - {a}, out := v.out - {a}, live := v.live - {a})
  }

  lemma DropDirectLedger(v: Snapshot, a: Addr)
    requires LedgerOk(v)
    ensures LedgerOk(WithoutDirect(v, a))
  {
    var n := WithoutDirect(v, a);
    forall b | b in n.out
      ensures Backed(n, b)
    {
      assert Backed(v, b);
    }
  }

  lemma DropDirectChunks(v: Snapshot, a: Addr)
    requires ChunksOk(v) && a in v.fallback
    ensures ChunksOk(WithoutDirect(v, a))
  {
    forall z | z in v.chunks
      ensures PlacedOk(WithoutDirect(v, a), z)
    {
      assert PlacedOk(v, z);
    }
  }

  lemma DropDirectLive(v: Snapshot, a: Addr)
    requires LiveOk(v) && forall z: Placed, l: nat :: !InUseAt(v, z, l, a)
    ensures LiveOk(WithoutDirect(v, a))
  {
    hide Suits;
    var n := WithoutDirect(v, a);
    OtherHomes(v, n, a);
    forall z: Placed, l: nat, q | InUseAt(n, z, l, q)
      ensures q in n.live
    {
      assert InUseAt(v, z, l, q);
    }
  }

  /** Giving back a direct allocation. */
  lemma DropDirect(v: Snapshot, a: Addr)
    requires Ok(v) && a in v.fallback
    ensures a in v.out && v.out[a] == v.fallback[a] && a in v.live
    ensures Ok(WithoutDirect(v, a))
  {
    assert a in v.out && v.out[a] == v.fallback[a] && a in v.live;
    hide LedgerOk, ChunksOk, LiveOk;
    forall z: Placed, l: nat
      ensures !InUseAt(v, z, l, a)
    {
      if InUseAt(v, z, l, a) {
        BlockAndDirectApart(v, z, l, a);
      }
    }
    DropDirectLedger(v, a);
    DropDirectChunks(v, a);
    DropDirectLive(v, a);
  }
}
