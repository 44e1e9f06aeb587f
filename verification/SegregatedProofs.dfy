/**
 Every run of the segregated allocator: growth, reclamation, direct allocation, rejected
 frees and any failures keep live allocations disjoint, and keep the provider's ledger
 equal to the chunks and direct allocations there are.
 */
module SegregatedProofs {
  import opened Bits
  import opened SizeClasses
  import opened Provider
  import opened BlockLayouts
  import opened ChunkModel
  import opened ManagerModel
  import opened SegregatedModel
  import opened SegregatedSnapshot

  function PlacedChunks(pools: seq<Manager>): set<Placed> {
    set i, c | 0 <= i < |pools| && c in pools[i].chunks :: (i, c)
  }

  function View(s: Seg): Snapshot {
    Snapshot(s.classes, PlacedChunks(s.pools), s.fallback, s.ledger.out, s.live)
  }

  ghost predicate PoolOk(classes: seq<nat>, m: Manager, i: nat)
    requires i < |classes|
  {
    && ManagerOk(m) && DistinctStorage(m.chunks)
    && m.opts.blockSize == classes[i] && m.opts.alignment == classes[i]
  }

  ghost predicate SegOk(s: Seg) {
    && ValidClasses(s.classes)
    && |s.pools| == |s.classes|
    && (forall i :: 0 <= i < |s.pools| ==> PoolOk(s.classes, s.pools[i], i))
    && !s.ledger.misused
    && SegregatedSnapshot.Ok(View(s))
  }

  // ---- how pool updates change the set of chunks ----

  lemma PlacedReplace(pools: seq<Manager>, i: nat, m: Manager, j: nat, c: Chunk)
    requires i < |pools| && j < |pools[i].chunks| && DistinctStorage(pools[i].chunks)
    requires m.chunks == pools[i].chunks[j := c]
    ensures (i, pools[i].chunks[j]) in PlacedChunks(pools)
    ensures PlacedChunks(pools[i := m]) == PlacedChunks(pools) - {(i, pools[i].chunks[j])} + {(i, c)}
  {
    var before, after := pools[i].chunks, m.chunks;
    forall d
      ensures d in after <==> (d in before && d != before[j]) || d == c
    {
      if d in before && d != before[j] {
        var k :| 0 <= k < |before| && before[k] == d;
        assert after[k] == d;
      }
      assert after[j] == c;
    }
  }

  lemma PlacedAppend(pools: seq<Manager>, i: nat, m: Manager, c: Chunk)
    requires i < |pools| && m.chunks == pools[i].chunks + [c]
    ensures PlacedChunks(pools[i := m]) == PlacedChunks(pools) + {(i, c)}
  {
    assert forall d :: d in m.chunks <==> d in pools[i].chunks || d == c;
  }

  lemma PlacedRemove(pools: seq<Manager>, i: nat, m: Manager, j: nat)
    requires i < |pools| && j < |pools[i].chunks| && DistinctStorage(pools[i].chunks)
    requires m.chunks == Without(pools[i].chunks, j)
    ensures (i, pools[i].chunks[j]) in PlacedChunks(pools)
    ensures PlacedChunks(pools[i := m]) == PlacedChunks(pools) - {(i, pools[i].chunks[j])}
  {
    var before, rest := pools[i].chunks, m.chunks;
    forall d
      ensures d in rest <==> d in before && d != before[j]
    {
      if d in before && d != before[j] {
        var k :| 0 <= k < |before| && before[k] == d;
        assert rest[if k < j then k else k - 1] == d;
      }
      if d in rest {
        var k :| 0 <= k < |rest| && rest[k] == d;
        assert before[if k < j then k else k + 1] == d;
      }
    }
  }

  // ---- allocation ----

  /** What the provider may answer to the request the allocator would make. */
  ghost predicate Supplies(s: Seg, size: nat, alignment: nat, supply: Supply)
    requires Ready(s)
  {
    match Select(s.classes, Normalized(size), alignment)
    case InvalidAlignment => true
    case NoClass => IsPowerOfTwo(alignment) ==>
        MayAnswer(s.ledger.out, Lease(Normalized(size), alignment), supply.answer)
    case Selected(i) =>
      LayoutOf(s.pools[i]).Ok? && LayoutOf(s.pools[i]).value.alignment != 0 ==>
        MayAnswer(s.ledger.out, LayoutLease(LayoutOf(s.pools[i]).value), supply.answer)
  }

  lemma ReadyOk(s: Seg)
    requires SegOk(s)
    ensures Ready(s)
  {
    forall i | 0 <= i < |s.pools|
      ensures ManagerOkForRun(s.pools[i])
    {
      assert PoolOk(s.classes, s.pools[i], i);
      assert forall j :: 0 <= j < |s.pools[i].chunks| ==> ChunkOk(s.pools[i].chunks[j]);
    }
  }

  lemma NodePower()
    ensures IsPowerOfTwo(NODE)
  {
    assert Pow2(3) == NODE;
    PowerOfTwoTest(NODE);
  }

  /** The layout of a class chunk: blocks of exactly the class size, aligned to it. */
  lemma ClassLayout(s: Seg, i: nat)
    requires SegOk(s) && i < |s.pools|
    ensures Usable(s.pools[i].opts)
    ensures var r := LayoutOf(s.pools[i]);
            r.Ok? ==>
              && r.value.blockStride == s.classes[i] && r.value.alignment == s.classes[i] && r.value.blockCount > 0
              && r.value.storageSize == StorageSize(r.value.blockStride, r.value.blockCount) && r.value.storageSize >= 1
  {
    var m := s.pools[i];
    assert PoolOk(s.classes, m, i);
    NodePower();
    var size := s.classes[i];
    assert IsPowerOfTwo(size) && NODE <= size;
    PowerOfTwoLayout(size, m.next, NODE, NODE);
    if m.next > 0 {
      MulAtLeast(m.next, size);
    }
  }

  lemma TakeReady(s: Seg, i: nat, j: nat, r: Request)
    requires SegOk(s) && i < |s.pools| && j < |s.pools[i].chunks| && |s.pools[i].chunks[j].free| > 0
    requires Suits(s.classes, i, r)
    ensures var (c, p) := ChunkModel.Allocate(s.pools[i].chunks[j]);
            && p != 0 && p !in s.live
            && SegOk(s.(pools := s.pools[i := TakeFrom(s.pools[i], j)], live := s.live[p := r]))
  {
    var m := s.pools[i];
    var x := m.chunks[j];
    var (c, p) := ChunkModel.Allocate(x);
    assert PoolOk(s.classes, m, i);
    var n := TakeFrom(m, j);
    TakeOk(m, j);
    AllocateOk(x);
    PlacedReplace(s.pools, i, n, j, c);
    assert PoolOk(s.classes, n, i);
    hide ManagerOk, SegregatedSnapshot.Ok, PlacedChunks, ChunkOk;
    TakeBlock(View(s), (i, x), (i, c), x.free[0], p, r);
    var t := s.(pools := s.pools[i := n], live := s.live[p := r]);
    assert View(t) == Swap(View(s), (i, x), (i, c), t.live);
  }

  /** A block handed out and given back at once leaves the ledger as it was. */
  lemma GiveBackAtOnce(l: Ledger, a: Addr, lease: Lease)
    requires a !in l.out
    ensures GiveBack(Grant(l, a, lease), a, lease) == l
  {
    assert l.out[a := lease] - {a} == l.out;
  }

  lemma FreshIsNewChunk(s: Seg, i: nat, a: Addr)
    requires SegOk(s) && i < |s.pools| && Usable(s.pools[i].opts) && LayoutOf(s.pools[i]).Ok?
    requires var l := LayoutOf(s.pools[i]).value; l.alignment != 0 && MayAnswer(s.ledger.out, LayoutLease(l), Some(a))
    ensures var l := LayoutOf(s.pools[i]).value;
            && NewChunk(View(s), (i, Fresh(a, l))) && Fits(a, l)
            && ChunkLease(Fresh(a, l)) == LayoutLease(l)
  {
    ClassLayout(s, i);
    var l := LayoutOf(s.pools[i]).value;
    var c := Fresh(a, l);
    assert s.classes[i] >= NODE;
    MultipleModZero(1, s.classes[i]);
    hide LayoutOf, SegregatedSnapshot.Ok, ManagerOk;
    FreshOk(a, l);
    forall k | 0 <= k < c.count
      ensures k in c.free
    {
      assert c.free[k] == k;
    }
  }

  /** Growing pool `i`, or failing to, keeps everything in order and no live address moves. */
  lemma GrowReady(s: Seg, i: nat, supply: Supply)
    requires SegOk(s) && i < |s.pools| && Usable(s.pools[i].opts)
    requires LayoutOf(s.pools[i]).Ok? ==>
               var l := LayoutOf(s.pools[i]).value;
               l.alignment != 0 && MayAnswer(s.ledger.out, LayoutLease(l), supply.answer)
    ensures Supplied(s.pools[i], supply)
    ensures SegOk(s.(pools := s.pools[i := Grow(s.pools[i], supply)],
                     ledger := GrowLedger(s.ledger, s.pools[i], supply)))
    ensures !Grows(s.pools[i], supply) ==> GrowLedger(s.ledger, s.pools[i], supply) == s.ledger
  {
    var m := s.pools[i];
    assert PoolOk(s.classes, m, i);
    if LayoutOf(m).Ok? && supply.answer.Some? {
      var a, l := supply.answer.value, LayoutOf(m).value;
      FreshIsNewChunk(s, i, a);
      var c := Fresh(a, l);
      AddChunk(View(s), (i, c));
      hide LayoutOf, NewChunk, MayAnswer, Fits;
      GiveBackAtOnce(s.ledger, a, LayoutLease(l));
      if supply.bookkeeping {
        GrowOk(m, supply);
        var n := Grow(m, supply);
        PlacedAppend(s.pools, i, n, c);
        NewStorage(s, i, a);
        assert PoolOk(s.classes, n, i) by {
          hide SegregatedSnapshot.Ok, PlacedChunks;
        }
        var t := s.(pools := s.pools[i := n], ledger := GrowLedger(s.ledger, m, supply));
        assert View(t) == WithChunk(View(s), (i, c));
      } else {
        assert s.pools[i := m] == s.pools;
      }
    } else {
      assert s.pools[i := m] == s.pools;
    }
  }

  lemma NewStorage(s: Seg, i: nat, a: Addr)
    requires SegOk(s) && i < |s.pools| && a !in s.ledger.out
    ensures forall j :: 0 <= j < |s.pools[i].chunks| ==> s.pools[i].chunks[j].storage != a
  {
    forall j | 0 <= j < |s.pools[i].chunks|
      ensures s.pools[i].chunks[j].storage != a
    {
      var c := s.pools[i].chunks[j];
      assert (i, c) in View(s).chunks;
      assert PlacedOk(View(s), (i, c));
    }
  }

  lemma PoolManager(s: Seg, i: nat)
    requires SegOk(s) && i < |s.pools|
    ensures ManagerOk(s.pools[i])
  {
    assert PoolOk(s.classes, s.pools[i], i);
  }

  lemma GrowAndTake(s: Seg, i: nat, r: Request, supply: Supply)
    requires SegOk(s) && Ready(s) && i < |s.pools| && Suits(s.classes, i, r) && Grows(s.pools[i], supply)
    requires var l := LayoutOf(s.pools[i]).value;
             l.alignment != 0 && MayAnswer(s.ledger.out, LayoutLease(l), supply.answer)
    ensures var m := s.pools[i];
            var g := Grow(m, supply);
            var (c, p) := ChunkModel.Allocate(g.chunks[|m.chunks|]);
            && p != 0 && p !in s.live
            && SegOk(s.(pools := s.pools[i := TakeFrom(g, |m.chunks|)], ledger := GrowLedger(s.ledger, m, supply),
                        live := s.live[p := r]))
  {
    hide SegOk, Suits, LayoutOf, GrowLedger, ManagerOk, MayAnswer, PoolOk, EmptyCount, Supplied;
    var m := s.pools[i];
    PoolManager(s, i);
    GrowReady(s, i, supply);
    GrowOk(m, supply);
    var g := Grow(m, supply);
    var t := s.(pools := s.pools[i := g], ledger := GrowLedger(s.ledger, m, supply));
    TakeReady(t, i, |m.chunks|, r);
    assert t.pools[i := TakeFrom(g, |m.chunks|)] == s.pools[i := TakeFrom(g, |m.chunks|)];
  }

  lemma AllocatePooledOk(s: Seg, i: nat, r: Request, supply: Supply)
    requires SegOk(s) && Ready(s) && i < |s.pools| && Suits(s.classes, i, r)
    requires LayoutOf(s.pools[i]).Ok? ==>
               var l := LayoutOf(s.pools[i]).value;
               l.alignment != 0 && MayAnswer(s.ledger.out, LayoutLease(l), supply.answer)
    ensures var (n, out) := AllocatePooled(s, i, r.size, r.alignment, supply);
            && SegOk(n)
            && (if out.Pointer? then out.p !in s.live && n.live == s.live[out.p := r] else n == s)
  {
    hide SegOk, Suits, LayoutOf, MayAnswer, GrowLedger, Grow;
    var m := s.pools[i];
    var j := FirstAvailable(m.chunks, 0);
    if j < |m.chunks| {
      TakeReady(s, i, j, r);
    } else if Grows(m, supply) {
      GrowAndTake(s, i, r, supply);
    } else {
      GrowReady(s, i, supply);
    }
  }

  lemma AllocateDirectOk(s: Seg, r: Request, supply: Supply)
    requires SegOk(s) && r.size >= 1 && r.alignment != 0
    requires MayAnswer(s.ledger.out, Lease(r.size, r.alignment), supply.answer)
    ensures var (n, out) := AllocateDirect(s, r.size, r.alignment, supply);
            && SegOk(n) && !out.DuplicateAddress?
            && (if out.Pointer? then out.p !in s.live && n.live == s.live[out.p := r] else n == s)
  {
    if supply.answer.Some? {
      var a := supply.answer.value;
      AddDirect(View(s), a, r);
      GiveBackAtOnce(s.ledger, a, Lease(r.size, r.alignment));
      hide MayAnswer, SegregatedSnapshot.Ok, PoolOk, ValidClasses;
      var (n, out) := AllocateDirect(s, r.size, r.alignment, supply);
      if supply.bookkeeping {
        assert View(n) == WithDirect(View(s), a, r);
      }
    }
  }

  /**
   Every allocation, served from a class, by growth, or directly: the address was not live,
   and a failed allocation changes nothing. The provider never returns a duplicate.
   */
  lemma AllocateKeepsOk(s: Seg, size: nat, alignment: nat, supply: Supply)
    requires SegOk(s) && Ready(s) && Supplies(s, size, alignment, supply)
    ensures var (n, out) := SegregatedModel.Allocate(s, size, alignment, supply);
            && SegOk(n) && !out.DuplicateAddress?
            && (if out.Pointer? then out.p !in s.live && n.live == s.live[out.p := Request(Normalized(size), alignment)]
                else n == s)
  {
    var n := Normalized(size);
    var r := Request(n, alignment);
    if IsPowerOfTwo(alignment) {
      SelectIsLeast(s.classes, n, alignment);
      var choice := Select(s.classes, n, alignment);
      if choice.Selected? {
        assert Suits(s.classes, choice.index, r);
        ClassLayout(s, choice.index);
        hide SegOk, Select, Suits;
        AllocatePooledOk(s, choice.index, r, supply);
      } else {
        hide SegOk, Select;
        AllocateDirectOk(s, r, supply);
      }
    }
  }

  // ---- exactly when, and where, an allocation succeeds ----

  /** Class `i` holds the request, and no smaller one does. */
  ghost predicate LeastClass(classes: seq<nat>, r: Request, i: nat) {
    && r.alignment != 0 && Compatible(classes, r.size, r.alignment, i)
    && forall k :: 0 <= k < i ==> !Compatible(classes, r.size, r.alignment, k)
  }

  ghost predicate HasClass(classes: seq<nat>, r: Request) {
    exists i :: LeastClass(classes, r, i)
  }

  /**
   A request of class `i`: a block of the first chunk that has one; if none has, the first block of a new
   chunk, where the provider put it. It fails exactly if there is no such block and the chunk
   would exceed `size_t`, or the provider or its bookkeeping fails.
   */
  ghost predicate FromClass(s: Seg, i: nat, r: Request, supply: Supply, n: Seg, out: AllocOutcome) {
    && i < |s.pools| == |s.classes|
    && var m := s.pools[i];
    && (out.Pointer? <==>
          || (exists j :: FirstWithBlock(m.chunks, j))
          || (s.classes[i] * m.next <= SIZE_MAX && supply.answer.Some? && supply.bookkeeping))
    && (if out.Pointer? then
          && |n.pools| == |s.pools| && n.pools == s.pools[i := n.pools[i]]
          && n.fallback == s.fallback && n.live == s.live[out.p := r]
          && (forall j :: FirstWithBlock(m.chunks, j) ==> TakesBlock(m, n.pools[i], out.p, j))
          && (NoBlock(m.chunks) ==> out.p == supply.answer.value && AddsChunk(m, n.pools[i], out.p))
        else out == OutOfMemory && n == s)
  }

  /** A request no class holds: the provider's block, or nothing if the provider or bookkeeping fails. */
  ghost predicate FromProvider(s: Seg, r: Request, supply: Supply, n: Seg, out: AllocOutcome) {
    if supply.answer.Some? && supply.bookkeeping then
      && out == Pointer(supply.answer.value) && n.pools == s.pools
      && n.fallback == s.fallback[out.p := Lease(r.size, r.alignment)] && n.live == s.live[out.p := r]
    else out == OutOfMemory && n == s
  }

  ghost predicate AllocatesExactly(s: Seg, size: nat, alignment: nat, supply: Supply, n: Seg, out: AllocOutcome) {
    var r := Request(Normalized(size), alignment);
    if !IsPowerOfTwo(alignment) then out == BadAlignment && n == s
    else
      && !out.BadAlignment?
      && (forall i :: LeastClass(s.classes, r, i) ==> FromClass(s, i, r, supply, n, out))
      && (!HasClass(s.classes, r) ==> FromProvider(s, r, supply, n, out))
  }

  lemma BlockOrNone(chunks: seq<Chunk>)
    ensures NoBlock(chunks) || FirstWithBlock(chunks, FirstAvailable(chunks, 0))
  {
  }

  lemma ClassBlockBytes(s: Seg, i: nat)
    requires SegOk(s) && i < |s.pools|
    ensures BlockBytes(s.pools[i].opts) == s.classes[i]
  {
    var c := s.classes[i];
    assert PoolOk(s.classes, s.pools[i], i);
    assert NODE <= c;
    MultipleModZero(1, c);
  }

  lemma FromClassExact(s: Seg, i: nat, r: Request, supply: Supply)
    requires SegOk(s) && Ready(s) && i < |s.pools| && Supplied(s.pools[i], supply)
    requires var (n, out) := AllocatePooled(s, i, r.size, r.alignment, supply); !out.Pointer? ==> n == s
    ensures var (n, out) := AllocatePooled(s, i, r.size, r.alignment, supply); FromClass(s, i, r, supply, n, out)
  {
    var m := s.pools[i];
    PoolManager(s, i);
    ClassBlockBytes(s, i);
    AllocateExact(m, supply);
    BlockOrNone(m.chunks);
    hide SegOk, ManagerOk, ManagerModel.Allocate, GrowLedger, TakesBlock, AddsChunk, FirstAvailable, BlockBytes, Ready;
    if NoBlock(m.chunks) {
      assert forall j :: !FirstWithBlock(m.chunks, j);
    }
  }

  /**
   Every request: refused as misaligned exactly when its alignment is no power of two, served by the smallest
   class that holds it or, if none does, by the provider, exactly when that can serve it.
   */
  lemma AllocateOutcome(s: Seg, size: nat, alignment: nat, supply: Supply)
    requires SegOk(s) && Ready(s) && Supplies(s, size, alignment, supply)
    ensures var (n, out) := SegregatedModel.Allocate(s, size, alignment, supply);
            AllocatesExactly(s, size, alignment, supply, n, out)
  {
    hide FromClass, FromProvider, Select, Supplies, LeastClass, SegregatedModel.Allocate;
    var r := Request(Normalized(size), alignment);
    if !IsPowerOfTwo(alignment) {
      Misaligned(s, size, alignment, supply);
    } else {
      RouteIsLeast(s.classes, r);
      if Select(s.classes, r.size, alignment).Selected? {
        RoutedToClass(s, size, alignment, supply);
      } else {
        RoutedToProvider(s, size, alignment, supply);
      }
    }
  }

  lemma Misaligned(s: Seg, size: nat, alignment: nat, supply: Supply)
    requires Ready(s) && !IsPowerOfTwo(alignment)
    ensures SegregatedModel.Allocate(s, size, alignment, supply) == (s, BadAlignment)
  {
  }

  lemma RoutedToClass(s: Seg, size: nat, alignment: nat, supply: Supply)
    requires SegOk(s) && Ready(s) && Supplies(s, size, alignment, supply)
    requires Select(s.classes, Normalized(size), alignment).Selected?
    ensures var (n, out) := SegregatedModel.Allocate(s, size, alignment, supply);
            var i := Select(s.classes, Normalized(size), alignment).index;
            !out.BadAlignment? && FromClass(s, i, Request(Normalized(size), alignment), supply, n, out)
  {
    var i := Select(s.classes, Normalized(size), alignment).index;
    AllocateKeepsOk(s, size, alignment, supply);
    ClassLayout(s, i);
    hide SegOk, Select, Ready, AllocatePooled;
    GrowReady(s, i, supply);
    FromClassExact(s, i, Request(Normalized(size), alignment), supply);
  }

  lemma RoutedToProvider(s: Seg, size: nat, alignment: nat, supply: Supply)
    requires SegOk(s) && Ready(s) && Supplies(s, size, alignment, supply)
    requires Select(s.classes, Normalized(size), alignment).NoClass?
    ensures var (n, out) := SegregatedModel.Allocate(s, size, alignment, supply);
            !out.BadAlignment? && FromProvider(s, Request(Normalized(size), alignment), supply, n, out)
  {
    AllocateKeepsOk(s, size, alignment, supply);
    FromProviderExact(s, Request(Normalized(size), alignment), supply);
    hide SegOk, Select, Ready, Supplies, AllocatePooled, AllocateDirect, FromProvider;
  }

  lemma FromProviderExact(s: Seg, r: Request, supply: Supply)
    ensures var (n, out) := AllocateDirect(s, r.size, r.alignment, supply);
            !out.DuplicateAddress? && (!out.Pointer? ==> n == s) ==> FromProvider(s, r, supply, n, out)
    ensures !AllocateDirect(s, r.size, r.alignment, supply).1.BadAlignment?
  {
    hide GiveBack;
  }

  lemma RouteIsLeast(classes: seq<nat>, r: Request)
    requires ValidClasses(classes) && IsPowerOfTwo(r.alignment)
    ensures var choice := Select(classes, r.size, r.alignment);
            && !choice.InvalidAlignment?
            && forall i :: LeastClass(classes, r, i) <==> choice == Selected(i)
  {
    SelectIsLeast(classes, r.size, r.alignment);
    hide Select, Compatible;
  }

  // ---- deallocation ----

  /** At most one chunk, in one pool, contains an address. */
  lemma OneOwner(s: Seg, i: nat, c: Chunk, k: nat, d: Chunk, p: Addr)
    requires SegOk(s) && i < |s.pools| && c in s.pools[i].chunks && k < |s.pools| && d in s.pools[k].chunks
    requires c.Owns(p) && d.Owns(p)
    ensures i == k && c == d
  {
    var v := View(s);
    assert (i, c) in v.chunks && (k, d) in v.chunks;
    hide PoolOk;
    ChunkRegions(v, (i, c));
    ChunkRegions(v, (k, d));
    assert c.storage == d.storage;
  }

  /** Returning a block to its chunk, before any reclamation. */
  lemma ReturnReady(s: Seg, i: nat, j: nat, p: Addr)
    requires SegOk(s) && i < |s.pools| && j < |s.pools[i].chunks| && s.pools[i].chunks[j].stride != 0
    requires ChunkModel.Deallocate(s.pools[i].chunks[j], p).1 == Freed
    ensures p in s.live && p !in s.fallback
    ensures SegOk(s.(pools := s.pools[i := Returned(s.pools[i], j, p)], live := s.live - {p}))
  {
    var m := s.pools[i];
    var x := m.chunks[j];
    var y := ChunkModel.Deallocate(x, p).0;
    assert PoolOk(s.classes, m, i);
    DeallocateOk(x, p);
    Basics(x, p);
    var n := Returned(m, j, p);
    ReturnedPool(s.classes, m, i, j, p);
    var k := x.IndexOf(p);
    hide ManagerOk, SegregatedSnapshot.Ok, PlacedChunks, ChunkOk, PoolOk;
    PlacedReplace(s.pools, i, n, j, y);
    ReturnBlock(View(s), (i, x), (i, y), k, p);
    var t := s.(pools := s.pools[i := n], live := s.live - {p});
    assert View(t) == Swap(View(s), (i, x), (i, y), t.live);
  }

  lemma ReturnedPool(classes: seq<nat>, m: Manager, i: nat, j: nat, p: Addr)
    requires i < |classes| && PoolOk(classes, m, i) && j < |m.chunks| && m.chunks[j].stride != 0
    ensures PoolOk(classes, Returned(m, j, p), i)
  {
    DeallocateOk(m.chunks[j], p);
    hide ChunkOk;
  }

  /** Reclaiming a completely free chunk gives its storage back exactly as it was obtained. */
  lemma ReclaimReady(s: Seg, i: nat, j: nat)
    requires SegOk(s) && i < |s.pools| && j < |s.pools[i].chunks| && s.pools[i].chunks[j].Empty()
    ensures var c := s.pools[i].chunks[j];
            SegOk(s.(pools := s.pools[i := s.pools[i].(chunks := Without(s.pools[i].chunks, j))],
                     ledger := GiveBack(s.ledger, c.storage, ChunkLease(c))))
  {
    var m := s.pools[i];
    var c := m.chunks[j];
    assert PoolOk(s.classes, m, i);
    forall k | 0 <= k < c.count
      ensures k in c.free
    {
      EmptyMeansAllFree(c, k);
    }
    var n := m.(chunks := Without(m.chunks, j));
    PlacedRemove(s.pools, i, n, j);
    WithoutDistinct(m.chunks, j);
    assert PoolOk(s.classes, n, i);
    DropChunk(View(s), (i, c));
    hide SegregatedSnapshot.Ok, PlacedChunks, ManagerOk;
    var t := s.(pools := s.pools[i := n], ledger := GiveBack(s.ledger, c.storage, ChunkLease(c)));
    assert View(t) == WithoutChunk(View(s), (i, c));
  }

  lemma FreeKeepsShape(c: Chunk, p: Addr)
    requires c.stride != 0
    ensures var d := ChunkModel.Deallocate(c, p).0; d.storage == c.storage && ChunkLease(d) == ChunkLease(c)
  {
  }

  lemma FreePooledOk(s: Seg, i: nat, p: Addr)
    requires SegOk(s) && Ready(s) && i < |s.pools| && p != 0 && PoolOwns(s.pools[i], p)
    ensures var (n, out) := FreePooled(s, i, p);
            && SegOk(n)
            && (if out == Done then p in s.live && n.live == s.live - {p} else n == s)
            && (out == Done || out == NotOwned || out == NotInUse)
  {
    hide SegOk, EmptyCount, ChunkModel.Deallocate, Owned, StorageSize, ChunkLease;
    var m := s.pools[i];
    var j := FindChunk(m.chunks, p, 0);
    var c := m.chunks[j];
    if ChunkModel.Deallocate(c, p).1 == Freed {
      ReturnReady(s, i, j, p);
      FreeKeepsShape(c, p);
      var mid := Returned(m, j, p);
      var t := s.(pools := s.pools[i := mid], live := s.live - {p});
      if Reclaims(mid, j) {
        ReclaimReady(t, i, j);
        var n := mid.(chunks := Without(mid.chunks, j));
        assert t.pools[i := n] == s.pools[i := n];
      }
    }
  }

  /** Every free: a live address is taken back, anything else is refused and changes nothing. */
  lemma DeallocateKeepsOk(s: Seg, p: Addr)
    requires SegOk(s) && Ready(s)
    ensures var (n, out) := SegregatedModel.Deallocate(s, p);
            && SegOk(n)
            && (if out == Done then p in s.live && n.live == s.live - {p} else n == s)
  {
    if p != 0 {
      var i := OwningClass(s.pools, p, 0);
      if i < |s.pools| {
        FreePooledOk(s, i, p);
      } else if p in s.fallback {
        DropDirect(View(s), p);
        var n := SegregatedModel.Deallocate(s, p).0;
        hide SegregatedSnapshot.Ok, PoolOk;
        assert View(n) == WithoutDirect(View(s), p);
      }
    }
  }

  // ---- sized deallocation ----

  /** The class that owns a pooled live address is the class its request selected. */
  lemma OwningClassOfPooled(s: Seg, p: Addr, r: Request)
    requires SegOk(s) && Pooled(View(s), p, r)
    ensures var i := OwningClass(s.pools, p, 0);
            && p != 0 && p !in s.fallback
            && i < |s.pools| && Select(s.classes, r.size, r.alignment) == Selected(i)
            && exists c, k :: c in s.pools[i].chunks && InUseAt(View(s), (i, c), k, p)
  {
    var v := View(s);
    var x, k := PooledRegion(v, p, r);
    assert PlacedOk(v, x);
    hide Select, PoolOk;
    SoleUser(v, x, k, p);
    IndexOfBlock(x.1, k);
    OwnedBy(s, x.0, x.1, p);
    assert x.1 in s.pools[x.0].chunks && InUseAt(v, (x.0, x.1), k, p);
  }

  lemma OwnedBy(s: Seg, i: nat, c: Chunk, p: Addr)
    requires SegOk(s) && i < |s.pools| && c in s.pools[i].chunks && c.Owns(p)
    ensures OwningClass(s.pools, p, 0) == i
    ensures var m := s.pools[i]; FindChunk(m.chunks, p, 0) < |m.chunks| && m.chunks[FindChunk(m.chunks, p, 0)] == c
  {
    hide SegOk;
    var j :| 0 <= j < |s.pools[i].chunks| && s.pools[i].chunks[j] == c;
    assert PoolOwns(s.pools[i], p);
    var o := OwningClass(s.pools, p, 0);
    var d := s.pools[o].chunks[FindChunk(s.pools[o].chunks, p, 0)];
    OneOwner(s, i, c, o, d, p);
  }

  /** No chunk contains a direct allocation. */
  lemma DirectHasNoClass(s: Seg, p: Addr)
    requires SegOk(s) && p in s.fallback
    ensures p != 0 && OwningClass(s.pools, p, 0) == |s.pools|
  {
    var v := View(s);
    assert LeaseOk(p, v.out[p]);
    var i := OwningClass(s.pools, p, 0);
    if i < |s.pools| {
      var c := s.pools[i].chunks[FindChunk(s.pools[i].chunks, p, 0)];
      assert (i, c) in v.chunks;
      assert PlacedOk(v, (i, c));
      ChunkRegions(v, (i, c));
    }
  }

  /** A live address is a tracked direct allocation or a block in use, not both. */
  lemma HomeOf(s: Seg, p: Addr)
    requires SegOk(s) && p in s.live
    ensures p in s.fallback ==> s.fallback[p] == Lease(s.live[p].size, s.live[p].alignment)
    ensures p !in s.fallback ==> Pooled(View(s), p, s.live[p])
  {
    assert Homed(View(s), p);
    hide SegOk, Pooled;
    if Pooled(View(s), p, s.live[p]) {
      OwningClassOfPooled(s, p, s.live[p]);
    }
  }

  /** The owning chunk accepts a block in use. */
  lemma ChunkAccepts(s: Seg, p: Addr, r: Request)
    requires SegOk(s) && Ready(s) && Pooled(View(s), p, r)
    ensures var i := OwningClass(s.pools, p, 0);
            && i < |s.pools| && Select(s.classes, r.size, r.alignment) == Selected(i)
            && FreePooled(s, i, p).1 == Done
  {
    OwningClassOfPooled(s, p, r);
    hide Pooled, Select;
    var i := OwningClass(s.pools, p, 0);
    var c, k :| c in s.pools[i].chunks && InUseAt(View(s), (i, c), k, p);
    assert InUseAt(View(s), (i, c), k, p) && PlacedOk(View(s), (i, c));
    hide SegOk;
    IndexOfBlock(c, k);
    OwnedBy(s, i, c, p);
  }

  /** Freeing a live address without a size always succeeds. */
  lemma FreeOfLiveSucceeds(s: Seg, p: Addr)
    requires SegOk(s) && Ready(s) && p in s.live
    ensures SegregatedModel.Deallocate(s, p).1 == Done && p != 0
  {
    hide SegOk, Pooled, Select, FreePooled;
    HomeOf(s, p);
    if p in s.fallback {
      DirectHasNoClass(s, p);
    } else {
      OwningClassOfPooled(s, p, s.live[p]);
      ChunkAccepts(s, p, s.live[p]);
    }
  }

  /**
   Sized deallocation of a live address succeeds exactly when the supplied size and alignment
   select the class of the original request or, for a direct allocation, equal its normalized
   size and alignment; otherwise nothing changes.
   */
  lemma SizedFreeExact(s: Seg, p: Addr, size: nat, alignment: nat)
    requires SegOk(s) && Ready(s) && p in s.live
    ensures var (n, out) := DeallocateSized(s, p, size, alignment);
            && (out == Done <==>
                  if p in s.fallback then s.live[p] == Request(Normalized(size), alignment)
                  else Select(s.classes, size, alignment) == Select(s.classes, s.live[p].size, s.live[p].alignment))
            && (if out == Done then SegOk(n) && n.live == s.live - {p} else n == s)
  {
    hide SegOk, Pooled, Select, SegregatedModel.Deallocate;
    FreeOfLiveSucceeds(s, p);
    DeallocateKeepsOk(s, p);
    HomeOf(s, p);
    if p in s.fallback {
      DirectHasNoClass(s, p);
    } else {
      OwningClassOfPooled(s, p, s.live[p]);
    }
  }

  /** A refused sized free of a live address is a mismatch, or names an alignment that is no power of two. */
  lemma SizedRefusal(s: Seg, p: Addr, size: nat, alignment: nat)
    requires SegOk(s) && Ready(s) && p in s.live
    ensures var out := DeallocateSized(s, p, size, alignment).1;
            out == Done || out == if p in s.fallback || IsPowerOfTwo(alignment) then WrongClass else BadFreeAlignment
  {
    hide *;
    FreeOfLiveSucceeds(s, p);
    HomeOf(s, p);
    if p in s.fallback {
      DirectHasNoClass(s, p);
    } else {
      OwningClassOfPooled(s, p, s.live[p]);
    }
    RefusedRoute(s, p, size, alignment);
  }

  lemma RefusedRoute(s: Seg, p: Addr, size: nat, alignment: nat)
    requires Ready(s) && p != 0 && SegregatedModel.Deallocate(s, p).1 == Done
    requires p in s.fallback <==> OwningClass(s.pools, p, 0) == |s.pools|
    ensures var out := DeallocateSized(s, p, size, alignment).1;
            out == Done || out == if p in s.fallback || IsPowerOfTwo(alignment) then WrongClass else BadFreeAlignment
  {
    hide Ready, OwningClass, IsPowerOfTwo, SegregatedModel.Deallocate, LowerBound;
  }

  /** `p` is the start of a free block. */
  ghost predicate IsFreeBlock(s: Seg, i: nat, c: Chunk, k: nat, p: Addr) {
    i < |s.pools| && c in s.pools[i].chunks && k < c.count && k in c.free && p == c.Block(k).start
  }

  /** A free that succeeds gives back the direct allocation at `p`, or the block of one pool that starts there. */
  ghost predicate FreesExactly(s: Seg, n: Seg, p: Addr) {
    && n.live == s.live - {p} && n.classes == s.classes
    && if p in s.fallback then n.fallback == s.fallback - {p} && n.pools == s.pools
       else
         && n.fallback == s.fallback && |n.pools| == |s.pools|
         && exists i :: 0 <= i < |s.pools| && n.pools == s.pools[i := n.pools[i]]
             && FreeExact(s.pools[i], p, n.pools[i], Freed)
  }

  /** Every unsized free, by what is at the address. */
  lemma FreeOutcomeExact(s: Seg, p: Addr)
    requires SegOk(s) && Ready(s)
    ensures var (n, out) := SegregatedModel.Deallocate(s, p);
            if p == 0 then out == Nothing && n == s
            else if p in s.live then out == Done && FreesExactly(s, n, p)
            else n == s && out == if exists i, c, k :: IsFreeBlock(s, i, c, k, p) then NotInUse else NotOwned
  {
    var (n, out) := SegregatedModel.Deallocate(s, p);
    DeallocateKeepsOk(s, p);
    if p in s.live {
      FreeOfLiveSucceeds(s, p);
      if p in s.fallback {
        DirectHasNoClass(s, p);
      } else {
        HomeOf(s, p);
        PooledFree(s, p);
      }
    } else if p != 0 {
      Refused(s, p);
    }
  }

  lemma PoolChunks(s: Seg, i: nat)
    requires SegOk(s) && i < |s.pools|
    ensures WellFormed(s.pools[i].chunks)
  {
    assert PoolOk(s.classes, s.pools[i], i);
    assert forall j :: 0 <= j < |s.pools[i].chunks| ==> ChunkOk(s.pools[i].chunks[j]);
  }

  lemma PooledFree(s: Seg, p: Addr)
    requires SegOk(s) && Ready(s) && p in s.live && p !in s.fallback && Pooled(View(s), p, s.live[p]) && p != 0
    ensures FreesExactly(s, SegregatedModel.Deallocate(s, p).0, p)
  {
    ChunkAccepts(s, p, s.live[p]);
    var i := OwningClass(s.pools, p, 0);
    PoolChunks(s, i);
    DeallocateExact(s.pools[i], p);
    hide SegOk, Pooled, FreeExact, ManagerModel.Deallocate, GiveBack, WellFormed;
    var n := SegregatedModel.Deallocate(s, p).0;
    assert n.pools == s.pools[i := n.pools[i]];
  }

  lemma Refused(s: Seg, p: Addr)
    requires SegOk(s) && Ready(s) && p != 0 && p !in s.live && p !in s.fallback
    requires SegregatedModel.Deallocate(s, p).0 == s && SegregatedModel.Deallocate(s, p).1 != Done
    ensures SegregatedModel.Deallocate(s, p).1 ==
            if exists i, c, k :: IsFreeBlock(s, i, c, k, p) then NotInUse else NotOwned
  {
    var i := OwningClass(s.pools, p, 0);
    forall k: nat, c, l: nat | IsFreeBlock(s, k, c, l, p)
      ensures SegregatedModel.Deallocate(s, p).1 == NotInUse
    {
      PoolChunks(s, k);
      IndexOfBlock(c, l);
      OwnedBy(s, k, c, p);
    }
    if i < |s.pools| {
      PoolChunks(s, i);
      var c := s.pools[i].chunks[FindChunk(s.pools[i].chunks, p, 0)];
      BlockStartExact(c, p);
      hide SegOk, WellFormed;
      assert SegregatedModel.Deallocate(s, p).1 == NotInUse ==> IsFreeBlock(s, i, c, c.IndexOf(p), p);
    }
  }

  // ---- whole runs ----

  datatype SegOp =
    | Alloc(size: nat, alignment: nat, supply: Supply)
    | Free(p: Addr)
    | FreeSized(p: Addr, size: nat, alignment: nat)

  function Step(s: Seg, op: SegOp): Seg
    requires Ready(s)
  {
    match op
    case Alloc(size, alignment, supply) => SegregatedModel.Allocate(s, size, alignment, supply).0
    case Free(p) => SegregatedModel.Deallocate(s, p).0
    case FreeSized(p, size, alignment) => DeallocateSized(s, p, size, alignment).0
  }

  lemma StepOk(s: Seg, op: SegOp)
    requires SegOk(s) && Ready(s) && (op.Alloc? ==> Supplies(s, op.size, op.alignment, op.supply))
    ensures SegOk(Step(s, op)) && Ready(Step(s, op))
  {
    hide SegOk, Supplies;
    match op {
      case Alloc(size, alignment, supply) => AllocateKeepsOk(s, size, alignment, supply);
      case Free(p) => DeallocateKeepsOk(s, p);
      case FreeSized(p, size, alignment) => DeallocateKeepsOk(s, p);
    }
    ReadyOk(Step(s, op));
  }

  /** A run: states joined by operations, the provider answering by its contract. */
  ghost predicate IsRun(states: seq<Seg>, ops: seq<SegOp>) {
    && |states| == |ops| + 1
    && forall i :: 0 <= i < |ops| ==>
         && Ready(states[i])
         && (ops[i].Alloc? ==> Supplies(states[i], ops[i].size, ops[i].alignment, ops[i].supply))
         && states[i + 1] == Step(states[i], ops[i])
  }

  /**
   In every state of every run, including growth, reclamation, direct allocations, rejected
   frees and failures of the provider or of bookkeeping: live allocations are aligned as
   requested, occupy disjoint regions of at least the requested size, and the provider's
   ledger is exactly the chunks and direct allocations, never misused.
   */
  lemma {:induction false} EveryRunOk(states: seq<Seg>, ops: seq<SegOp>, k: nat)
    requires IsRun(states, ops) && SegOk(states[0]) && k < |states|
    ensures SegOk(states[k])
    decreases k
  {
    if k > 0 {
      EveryRunOk(states, ops, k - 1);
      hide SegOk, Ready, Supplies, Step;
      StepOk(states[k - 1], ops[k - 1]);
    }
  }

  lemma RunLiveDisjoint(states: seq<Seg>, ops: seq<SegOp>, k: nat, p: Addr, q: Addr)
    requires IsRun(states, ops) && SegOk(states[0]) && k < |states|
    requires p in states[k].live && q in states[k].live && p != q
    ensures var s := states[k];
            && s.live[p].alignment != 0 && p % s.live[p].alignment == 0
            && Apart(Region(p, s.live[p].size), Region(q, s.live[q].size))
  {
    EveryRunOk(states, ops, k);
    LiveAllocationsDisjoint(View(states[k]), p, q);
  }

  /**
   The outstanding provider allocations are exactly chunk storages and direct allocations, each
   with its own lease.
   */
  lemma LedgerIsExact(s: Seg, a: Addr)
    requires SegOk(s)
    ensures !s.ledger.misused
    ensures a in s.ledger.out <==>
              a in s.fallback || exists i, c :: 0 <= i < |s.pools| && c in s.pools[i].chunks && c.storage == a
    ensures a in s.fallback ==> a in s.ledger.out && s.ledger.out[a] == s.fallback[a]
    ensures forall i, c :: 0 <= i < |s.pools| && c in s.pools[i].chunks ==>
              c.storage in s.ledger.out && s.ledger.out[c.storage] == ChunkLease(c)
  {
    var v := View(s);
    hide PoolOk;
    forall i, c | 0 <= i < |s.pools| && c in s.pools[i].chunks
      ensures c.storage in s.ledger.out && s.ledger.out[c.storage] == ChunkLease(c)
    {
      assert (i, c) in v.chunks;
      assert PlacedOk(v, (i, c));
    }
    if a in s.ledger.out && a !in s.fallback {
      assert Backed(v, a);
      var x: Placed :| x in v.chunks && x.1.storage == a;
      assert x.1 in s.pools[x.0].chunks;
    }
  }
}
