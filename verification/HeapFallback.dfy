/**
 A chunk pool with the heap-fallback exhaustion policy: when its chunks are full it takes blocks
 straight from the provider, remembers them by address alone, and returns them with the manager's
 block size. Chunks and fallback blocks share one provider and one ledger.
 */
module HeapFallbacks {
  import opened Provider
  import opened BlockLayouts
  import opened MemoryChunks
  import opened ChunkManagers
  import opened SegregatedModel
  import C = ChunkModel
  import M = ManagerModel

  // ---- the ledger ----

  /** The manager's block size and alignment, which every chunk has. */
  function BlockLease(c: C.Chunk): Lease {
    Lease(c.stride, c.alignment)
  }

  /**
   What is outstanding is exactly the storage of the chunks and the fallback blocks, and a
   fallback block is what a block of the manager is.
   */
  ghost predicate Exact(chunks: seq<C.Chunk>, pointers: set<Addr>, lease: Lease, out: map<Addr, Lease>) {
    && (forall c :: c in chunks ==> c.storage in out && out[c.storage] == ChunkLease(c) && c.storage !in pointers)
    && (forall c :: c in chunks ==> BlockLease(c) == lease)
    && (forall p :: p in pointers ==> p in out && out[p] == lease)
    && (forall a :: a in out ==> a in pointers || exists c :: c in chunks && c.storage == a)
    && M.DistinctStorage(chunks)
  }

  ghost predicate AllApart(out: map<Addr, Lease>) {
    && (forall a :: a in out ==> a != 0 && out[a].bytes > 0)
    && (forall a, b :: a in out && b in out && a != b ==> Apart(LeasedRegion(a, out[a]), LeasedRegion(b, out[b])))
  }

  lemma AddPointer(chunks: seq<C.Chunk>, pointers: set<Addr>, lease: Lease, out: map<Addr, Lease>, p: Addr)
    requires Exact(chunks, pointers, lease, out) && p !in out
    ensures Exact(chunks, pointers + {p}, lease, out[p := lease])
  {
  }

  lemma DropPointer(chunks: seq<C.Chunk>, pointers: set<Addr>, lease: Lease, l: Ledger, p: Addr)
    requires Exact(chunks, pointers, lease, l.out) && AllApart(l.out) && p in pointers && !l.misused
    ensures var n := GiveBack(l, p, lease);
            !n.misused && Exact(chunks, pointers - {p}, lease, n.out) && AllApart(n.out)
  {
  }

  lemma GrantedBack(l: Ledger, p: Addr, lease: Lease)
    requires p !in l.out
    ensures GiveBack(Grant(l, p, lease), p, lease) == l
  {
    assert l.out[p := lease] - {p} == l.out;
  }

  lemma AddChunk(chunks: seq<C.Chunk>, pointers: set<Addr>, lease: Lease, out: map<Addr, Lease>, c: C.Chunk)
    requires Exact(chunks, pointers, lease, out) && c.storage !in out && BlockLease(c) == lease
    ensures Exact(chunks + [c], pointers, lease, out[c.storage := ChunkLease(c)])
  {
    var longer := chunks + [c];
    assert forall d :: d in longer <==> d in chunks || d == c;
    assert forall i :: 0 <= i < |chunks| ==> longer[i] in chunks;
  }

  predicate SameShape(c: C.Chunk, d: C.Chunk) {
    d.storage == c.storage && ChunkLease(d) == ChunkLease(c) && BlockLease(d) == BlockLease(c)
  }

  /** A chunk that hands out or takes back a block keeps its storage. */
  lemma SwapChunk(chunks: seq<C.Chunk>, pointers: set<Addr>, lease: Lease, out: map<Addr, Lease>, j: nat, c: C.Chunk)
    requires Exact(chunks, pointers, lease, out) && j < |chunks|
    requires SameShape(chunks[j], c)
    ensures Exact(chunks[j := c], pointers, lease, out)
  {
    var after := chunks[j := c];
    forall d | d in after
      ensures d.storage in out && out[d.storage] == ChunkLease(d) && d.storage !in pointers && BlockLease(d) == lease
    {
      assert d != c ==> d in chunks;
      assert chunks[j] in chunks;
    }
    forall a | a in out && a !in pointers
      ensures exists d :: d in after && d.storage == a
    {
      var i :| 0 <= i < |chunks| && chunks[i].storage == a;
      assert after[i] in after;
    }
  }

  lemma DropChunk(chunks: seq<C.Chunk>, pointers: set<Addr>, lease: Lease, out: map<Addr, Lease>, j: nat)
    requires Exact(chunks, pointers, lease, out) && j < |chunks|
    ensures Exact(M.Without(chunks, j), pointers, lease, out - {chunks[j].storage})
  {
    Remaining(chunks, j);
    M.WithoutDistinct(chunks, j);
    hide M.Without, M.DistinctStorage, ChunkLease;
    assert chunks[j] in chunks;
    var after := out - {chunks[j].storage};
    assert forall a :: a in after <==> a in out && a != chunks[j].storage;
    forall a | a in out && a != chunks[j].storage && a !in pointers
      ensures exists d :: d in M.Without(chunks, j) && d.storage == a
    {
      var c :| c in chunks && c.storage == a;
      assert c in M.Without(chunks, j);
    }
  }

  lemma Remaining(chunks: seq<C.Chunk>, j: nat)
    requires j < |chunks| && M.DistinctStorage(chunks)
    ensures forall d :: d in M.Without(chunks, j) <==> d in chunks && d.storage != chunks[j].storage
  {
    var rest := M.Without(chunks, j);
    forall d
      ensures d in rest <==> d in chunks && d.storage != chunks[j].storage
    {
      if d in rest {
        var k :| 0 <= k < |rest| && rest[k] == d;
        assert chunks[if k < j then k else k + 1] == d;
      }
      if d in chunks && d.storage != chunks[j].storage {
        var k :| 0 <= k < |chunks| && chunks[k] == d;
        assert rest[if k < j then k else k - 1] == d;
      }
    }
  }

  lemma GrantApart(out: map<Addr, Lease>, a: Addr, lease: Lease)
    requires AllApart(out) && lease.bytes > 0 && lease.alignment != 0 && MayAnswer(out, lease, Some(a))
    ensures a !in out && AllApart(out[a := lease])
  {
  }

  lemma TakenChunk(c: C.Chunk)
    ensures SameShape(c, C.Allocate(c).0)
  {
  }

  /** Giving back the storage of chunk `j`. */
  lemma ReturnChunk(chunks: seq<C.Chunk>, pointers: set<Addr>, lease: Lease, l: Ledger, j: nat)
    requires Exact(chunks, pointers, lease, l.out) && AllApart(l.out) && j < |chunks| && !l.misused
    ensures var n := GiveBack(l, chunks[j].storage, ChunkLease(chunks[j]));
            !n.misused && Exact(M.Without(chunks, j), pointers, lease, n.out) && AllApart(n.out)
  {
    DropChunk(chunks, pointers, lease, l.out, j);
    assert chunks[j] in chunks;
  }

  function FreedLedger(m: M.Manager, p: Addr, l: Ledger): Ledger
    requires M.ManagerOkForRun(m)
  {
    var n := M.Deallocate(m, p).0;
    var j := M.FindChunk(m.chunks, p, 0);
    if |n.chunks| < |m.chunks| && j < |m.chunks| then GiveBack(l, m.chunks[j].storage, ChunkLease(m.chunks[j])) else l
  }

  /** A block that goes back to its chunk, and the chunk that is then perhaps given up. */
  lemma FreedBalanced(m: M.Manager, p: Addr, pointers: set<Addr>, lease: Lease, l: Ledger)
    requires M.ManagerOkForRun(m) && Exact(m.chunks, pointers, lease, l.out) && AllApart(l.out) && !l.misused
    ensures var n, k := M.Deallocate(m, p).0, FreedLedger(m, p, l);
            !k.misused && Exact(n.chunks, pointers, lease, k.out) && AllApart(k.out)
  {
    hide Exact, AllApart, GiveBack, M.EmptyCount;
    var (n, r) := M.Deallocate(m, p);
    if r == C.Freed {
      var j := M.FindChunk(m.chunks, p, 0);
      var d := C.Deallocate(m.chunks[j], p).0;
      FreedChunk(m.chunks[j], p);
      hide C.Deallocate;
      SwapChunk(m.chunks, pointers, lease, l.out, j, d);
      if |n.chunks| < |m.chunks| {
        ReturnChunk(m.chunks[j := d], pointers, lease, l, j);
      }
    }
  }

  lemma NotHere(m: M.Manager, p: Addr)
    requires M.ManagerOkForRun(m) && p != 0 && M.FindChunk(m.chunks, p, 0) == |m.chunks|
    ensures M.Deallocate(m, p) == (m, C.InvalidPointer)
  {
  }

  lemma FreedChunk(c: C.Chunk, p: Addr)
    requires c.stride != 0
    ensures SameShape(c, C.Deallocate(c, p).0)
  {
  }

  /** The first growth: the ledger has the one chunk, or nothing. */
  lemma StartBalanced(m: M.Manager, supply: M.Supply)
    requires M.Usable(m.opts) && m.chunks == [] && M.Supplied(m, supply)
    requires M.LayoutOf(m).Ok? ==>
               var k := LayoutLease(M.LayoutOf(m).value);
               k.bytes > 0 && k.alignment != 0 && MayAnswer(map[], k, supply.answer)
    ensures var k := GrowLedger(Ledger(map[], false), m, supply);
            if M.Grows(m, supply)
            then
              var c := C.Fresh(supply.answer.value, M.LayoutOf(m).value);
              && !k.misused && Exact([c], {}, BlockLease(c), k.out) && AllApart(k.out)
              && BlockLease(c).bytes > 0 && BlockLease(c).alignment != 0
            else k == Ledger(map[], false)
  {
    if M.LayoutOf(m).Ok? && supply.answer.Some? {
      var a, l, k := supply.answer.value, M.LayoutOf(m).value, LayoutLease(M.LayoutOf(m).value);
      WholeLease(m, a);
      hide M.LayoutOf;
      GrantApart(map[], a, k);
      GrantedBack(Ledger(map[], false), a, k);
      if M.Grows(m, supply) {
        var c := C.Fresh(a, l);
        AddChunk([], {}, BlockLease(c), map[], c);
        assert [] + [c] == [c];
      }
      hide Exact, AllApart;
    }
  }

  /** A chunk is exactly the provider block it was laid out in. */
  lemma WholeLease(m: M.Manager, a: Addr)
    requires M.Usable(m.opts) && M.LayoutOf(m).Ok?
    ensures ChunkLease(C.Fresh(a, M.LayoutOf(m).value)) == LayoutLease(M.LayoutOf(m).value)
  {
    hide RoundUp;
  }

  // ---- the pool ----

  class HeapFallbackPool {
    const manager: ChunkManager
    /** The manager's block size and alignment, known from its first chunk on. */
    var lease: Lease
    var pointers: set<Addr>
    ghost var ledger: Ledger

    ghost function Chunks(): seq<C.Chunk>
      reads manager, manager.chunks
    {
      manager.ChunkViews()
    }

    /** Chunks and fallback blocks are all the provider has outstanding, and none overlaps another. */
    ghost predicate Balanced()
      reads this, manager, manager.chunks
    {
      && lease.bytes > 0 && lease.alignment != 0
      && !ledger.misused && Exact(Chunks(), pointers, lease, ledger.out) && AllApart(ledger.out)
    }

    ghost predicate Valid()
      reads this, manager, manager.chunks, MemoryOf(manager.chunks)
    {
      manager.Valid() && this !in manager.Footprint() && Balanced()
    }

    /** The pool before the manager's initial growth. */
    ghost predicate Unstarted()
      reads this, manager, manager.chunks, MemoryOf(manager.chunks)
    {
      manager.Valid() && this !in manager.Footprint() && manager.chunks == [] && pointers == {}
      && ledger == Ledger(map[], false)
    }

    constructor (opts: M.Options)
      requires M.Usable(opts)
      ensures Unstarted() && fresh(manager) && manager.View() == M.Unbuilt(opts)
    {
      manager := new ChunkManager(opts);
      lease := Lease(0, 0);
      pointers := {};
      ledger := Ledger(map[], false);
    }

    /** The manager's initial growth; a failure leaves nothing behind. */
    method Start(supply: M.Supply) returns (ok: bool)
      requires Unstarted() && M.Supplied(manager.View(), supply)
      requires M.LayoutOf(manager.View()).Ok? ==>
                 var l := LayoutLease(M.LayoutOf(manager.View()).value);
                 l.bytes > 0 && l.alignment != 0 && MayAnswer(map[], l, supply.answer)
      modifies this, manager
      ensures ok == M.Grows(old(manager.View()), supply) && manager.View() == M.Grow(old(manager.View()), supply)
      ensures if ok then Valid() && pointers == {} && |Chunks()| == 1 && lease == BlockLease(Chunks()[0])
              else Unstarted()
    {
      ghost var m := manager.View();
      StartBalanced(m, supply);
      hide ChunkManager.Valid, MemoryChunk.Valid, ObjectsOf, Exact, AllApart, GrowLedger, M.LayoutOf, M.Supplied,
          MayAnswer, C.Fresh;
      ledger := GrowLedger(ledger, m, supply);
      manager.Untouched();
      ok := manager.Grow(supply);
      if ok {
        assert Chunks() == [C.Fresh(supply.answer.value, M.LayoutOf(m).value)];
        label grown:
        lease := Lease(manager.chunks[0].stride, manager.chunks[0].alignment);
        manager.Untouched@grown();
      }
    }

    /** A block of the provider, recorded or given back at once; null means that something threw. */
    method OnExhaustion(supply: M.Supply) returns (p: Addr)
      requires Valid() && MayAnswer(ledger.out, lease, supply.answer)
      modifies this
      ensures Valid() && lease == old(lease) && Chunks() == old(Chunks())
      ensures p != 0 <==> supply.answer.Some? && supply.bookkeeping
      ensures if p == 0 then pointers == old(pointers) && ledger == old(ledger)
              else
                && p !in old(ledger).out && pointers == old(pointers) + {p} && p % lease.alignment == 0
                && forall a :: a in old(ledger).out ==>
                     Apart(LeasedRegion(a, old(ledger).out[a]), Region(p, lease.bytes))
    {
      hide ChunkManager.Valid, MemoryChunk.Valid, ObjectsOf;
      if supply.answer.None? {
        return 0;
      }
      p := supply.answer.value;
      GrantApart(ledger.out, p, lease);
      AddPointer(Chunks(), pointers, lease, ledger.out, p);
      GrantedBack(ledger, p, lease);
      hide Exact, AllApart, GiveBack;
      ledger := Grant(ledger, p, lease);
      if !supply.bookkeeping {
        ledger := GiveBack(ledger, p, lease);
        manager.Untouched();
        return 0;
      }
      pointers := pointers + {p};
      manager.Untouched();
    }

    /** An existing block if a chunk has one, else one of the provider. */
    method Allocate(supply: M.Supply) returns (p: Addr)
      requires Valid() && MayAnswer(ledger.out, lease, supply.answer)
      modifies this, manager.chunks
      ensures Valid() && lease == old(lease)
      ensures var j := M.FirstAvailable(old(Chunks()), 0);
              if j < |old(Chunks())|
              then
                && p == C.Allocate(old(Chunks())[j]).1 && p != 0
                && Chunks() == old(Chunks())[j := C.Allocate(old(Chunks())[j]).0]
                && pointers == old(pointers) && ledger == old(ledger)
              else
                && Chunks() == old(Chunks())
                && (p != 0 <==> supply.answer.Some? && supply.bookkeeping)
                && (if p == 0 then pointers == old(pointers) && ledger == old(ledger)
                    else p !in old(ledger).out && pointers == old(pointers) + {p})
    {
      hide ChunkManager.Valid, MemoryChunk.Valid, ObjectsOf, AllApart;
      p := manager.TryAllocate();
      if p != 0 {
        ghost var j := M.FirstAvailable(old(Chunks()), 0);
        TakenChunk(old(Chunks())[j]);
        SwapChunk(old(Chunks()), pointers, lease, ledger.out, j, C.Allocate(old(Chunks())[j]).0);
        return;
      }
      p := OnExhaustion(supply);
    }

    /** `try_deallocate` of the policy: exactly its own pointers are taken. */
    method TryDeallocate(p: Addr) returns (taken: bool)
      requires Valid()
      modifies this
      ensures Valid() && lease == old(lease) && Chunks() == old(Chunks())
      ensures taken == (p in old(pointers)) && pointers == old(pointers) - {p}
    {
      hide ChunkManager.Valid, MemoryChunk.Valid, ObjectsOf;
      if p !in pointers {
        return false;
      }
      DropPointer(Chunks(), pointers, lease, ledger, p);
      hide Exact, AllApart, GiveBack;
      ledger := GiveBack(ledger, p, lease);
      pointers := pointers - {p};
      manager.Untouched();
      return true;
    }

    /** A block goes back to the chunk around it, a fallback block to the provider; anything else changes nothing. */
    method Deallocate(p: Addr) returns (r: C.FreeResult)
      requires Valid()
      modifies this, manager, manager.Footprint()
      ensures Valid() && lease == old(lease) && M.ManagerOkForRun(old(manager.View()))
      ensures var m := old(manager.View());
              if p != 0 && M.FindChunk(m.chunks, p, 0) == |m.chunks| && p in old(pointers)
              then r == C.Freed && Chunks() == m.chunks && pointers == old(pointers) - {p}
              else
                && Chunks() == M.Deallocate(m, p).0.chunks && r == M.Deallocate(m, p).1 && pointers == old(pointers)
                && M.FreeExact(m, p, manager.View(), r)
    {
      hide ChunkManager.Valid, MemoryChunk.Valid, ObjectsOf, M.Deallocate, M.FindChunk, M.FreeExact;
      ghost var m := manager.View();
      manager.Strides();
      var j := manager.FindChunk(p);
      manager.Untouched();
      if p != 0 && j == |manager.chunks| {
        NotHere(m, p);
        var taken := TryDeallocate(p);
        manager.Sane();
        M.DeallocateExact(m, p);
        return if taken then C.Freed else C.InvalidPointer;
      }
      FreedBalanced(m, p, pointers, lease, ledger);
      hide Exact, AllApart;
      ledger := FreedLedger(m, p, ledger);
      manager.Untouched();
      r := manager.Deallocate(p);
    }

    /** `release_all`, and then the chunks: the provider gets everything back, once and as it was asked for. */
    method Destroy()
      requires Valid()
      modifies this, manager
      ensures pointers == {} && manager.chunks == [] && ledger == Ledger(map[], false)
    {
      hide ChunkManager.Valid, MemoryChunk.Valid, ObjectsOf;
      ReleaseAll();
      while |manager.chunks| > 0
        invariant Valid() && pointers == {}
        decreases |manager.chunks|
      {
        ReleaseChunk();
      }
    }

    method ReleaseAll()
      requires Valid()
      modifies this
      ensures Valid() && lease == old(lease) && pointers == {} && Chunks() == old(Chunks())
    {
      hide ChunkManager.Valid, MemoryChunk.Valid, ObjectsOf, Exact, AllApart;
      while pointers != {}
        invariant Valid() && lease == old(lease) && Chunks() == old(Chunks())
        decreases |pointers|
      {
        var p :| p in pointers;
        var taken := TryDeallocate(p);
      }
    }

    method ReleaseChunk()
      requires Valid() && |manager.chunks| > 0
      modifies `ledger, manager
      ensures Valid() && |manager.chunks| == |old(manager.chunks)| - 1
    {
      hide ChunkManager.Valid, MemoryChunk.Valid, ObjectsOf;
      ReturnChunk(Chunks(), pointers, lease, ledger, |Chunks()| - 1);
      hide Exact, AllApart, GiveBack;
      var c := manager.chunks[|manager.chunks| - 1];
      ledger := GiveBack(ledger, c.storage, ChunkLease(c.View()));
      manager.Untouched();
      c := manager.DropLast();
    }
  }
}
