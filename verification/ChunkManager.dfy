/**
 The growing chunk pool as an object: a vector of chunk objects, scanned by loops, grown and
 shrunk in place. Each chunk's free list lives in the memory its clients write to.
 */
module ChunkManagers {
  import opened Provider
  import opened Growth
  import opened BlockLayouts
  import opened BlockMemory
  import opened MemoryChunks
  import C = ChunkModel
  import M = ManagerModel

  ghost function MemoryOf(chunks: seq<MemoryChunk>): set<array<Byte>> {
    set c | c in chunks :: c.bytes
  }

  /** The chunk objects and the memory behind them. */
  ghost function ObjectsOf(chunks: seq<MemoryChunk>): set<object> {
    (set c | c in chunks :: c as object) + MemoryOf(chunks)
  }

  ghost predicate Separate(chunks: seq<MemoryChunk>) {
    forall i, j :: 0 <= i < j < |chunks| ==> chunks[i] != chunks[j] && chunks[i].bytes != chunks[j].bytes
  }

  lemma Spliced(chunks: seq<MemoryChunk>, j: nat)
    requires j < |chunks| && Separate(chunks)
    ensures var rest := chunks[..j] + chunks[j + 1..];
            Separate(rest) && ObjectsOf(rest) <= ObjectsOf(chunks) && forall c :: c in rest ==> c in chunks
  {
    var rest := chunks[..j] + chunks[j + 1..];
    assert forall k :: 0 <= k < |rest| ==> rest[k] == chunks[if k < j then k else k + 1];
    forall c | c in rest
      ensures c in chunks
    {
      var k :| 0 <= k < |rest| && rest[k] == c;
      assert chunks[if k < j then k else k + 1] == c;
    }
  }

  lemma Appended(chunks: seq<MemoryChunk>, c: MemoryChunk)
    requires Separate(chunks) && forall d :: d in chunks ==> d != c && d.bytes != c.bytes
    ensures Separate(chunks + [c]) && ObjectsOf(chunks + [c]) == ObjectsOf(chunks) + {c, c.bytes}
  {
    var longer := chunks + [c];
    assert forall d :: d in longer <==> d in chunks || d == c;
    assert forall i :: 0 <= i < |chunks| ==> longer[i] in chunks;
  }

  class ChunkManager {
    const opts: M.Options
    var chunks: seq<MemoryChunk>
    var nextGrowthBlocks: nat
    ghost var growths: nat

    ghost function ChunkViews(): (views: seq<C.Chunk>)
      reads this, chunks
      ensures |views| == |chunks| && forall i :: 0 <= i < |chunks| ==> views[i] == chunks[i].View()
    {
      seq(|chunks|, i requires 0 <= i < |chunks| reads this, chunks => chunks[i].View())
    }

    ghost function View(): M.Manager
      reads this, chunks
    {
      M.Manager(opts, ChunkViews(), nextGrowthBlocks, growths)
    }

    ghost function Footprint(): set<object>
      reads this
    {
      ObjectsOf(chunks)
    }

    ghost predicate Valid()
      reads this, chunks, MemoryOf(chunks)
    {
      && M.Usable(opts)
      && (forall c :: c in chunks ==> c.bytes in MemoryOf(chunks) && c.Valid())
      && Separate(chunks)
    }

    /** Nothing of the manager was touched. */
    twostate lemma Untouched()
      requires old(Valid()) && unchanged(this) && forall c :: c in chunks ==> unchanged(c) && unchanged(c.bytes)
      ensures Valid() && View() == old(View()) && Footprint() == old(Footprint())
    {
      hide MemoryChunk.Valid;
      assert ChunkViews() == old(ChunkViews());
    }

    lemma InFootprint()
      ensures forall c :: c in chunks ==> c in Footprint()
    {
    }

    lemma Strides()
      requires Valid()
      ensures M.ManagerOkForRun(View())
    {
      forall j | 0 <= j < |chunks|
        ensures chunks[j].View().stride != 0
      {
        chunks[j].Sane();
      }
    }

    lemma Sane()
      requires Valid()
      ensures M.WellFormed(View().chunks)
    {
      forall j | 0 <= j < |chunks|
        ensures C.ChunkOk(chunks[j].View())
      {
        chunks[j].Sane();
      }
    }

    /** The manager before its constructor grows it to the initial number of blocks. */
    constructor (opts: M.Options)
      ensures View() == M.Unbuilt(opts) && (M.Usable(opts) ==> Valid()) && Footprint() == {}
    {
      this.opts := opts;
      chunks := [];
      nextGrowthBlocks := opts.initialBlocks;
      growths := 0;
    }

    /** Appends one completely free chunk and advances the size sequence, or leaves everything as it was. */
    method Grow(supply: M.Supply) returns (grown: bool)
      requires Valid() && M.Supplied(View(), supply)
      modifies this
      ensures Valid() && fresh(Footprint() - old(Footprint()))
      ensures grown == M.Grows(old(View()), supply) && View() == M.Grow(old(View()), supply)
      ensures !grown ==> unchanged(this)
      ensures grown ==>
                && |chunks| == |old(chunks)| + 1 && old(chunks) <= chunks && fresh(chunks[|old(chunks)|])
                && chunks[|old(chunks)|].View().Empty() && |chunks[|old(chunks)|].stack| > 0
    {
      hide MemoryChunk.Valid, Separate;
      var layout := MakeLayout(opts.blockSize, nextGrowthBlocks, opts.alignment, false, C.NODE, C.NODE, 0);
      if !layout.Ok? || supply.answer.None? || !supply.bookkeeping {
        return false;
      }
      hide MakeLayout, C.Fits;
      Append(supply.answer.value, layout.value);
      nextGrowthBlocks := NextSize(opts.growth, opts.initialBlocks, nextGrowthBlocks);
      growths := growths + 1;
      return true;
    }

    method Append(storage: Addr, layout: BlockLayout)
      requires Valid() && C.Fits(storage, layout)
      modifies `chunks
      ensures Valid() && fresh(Footprint() - old(Footprint()))
      ensures ChunkViews() == old(ChunkViews()) + [C.Fresh(storage, layout)]
      ensures |chunks| == |old(chunks)| + 1 && old(chunks) <= chunks && fresh(chunks[|old(chunks)|])
      ensures chunks[|old(chunks)|].View().Empty() && |chunks[|old(chunks)|].stack| > 0
    {
      hide MemoryChunk.Valid;
      var chunk := new MemoryChunk(storage, layout);
      chunk.Sane();
      Appended(chunks, chunk);
      hide Separate, C.ChunkOk, C.Fits;
      chunks := chunks + [chunk];
    }

    /** Takes a block of chunk `j`, which has one. */
    method TakeFrom(j: nat) returns (p: Addr)
      requires Valid() && j < |chunks| && |chunks[j].stack| > 0
      modifies chunks[j]
      ensures chunks == old(chunks)
      ensures Valid() && View() == M.TakeFrom(old(View()), j) && p == C.Allocate(old(chunks[j].View())).1 && p != 0
    {
      hide MemoryChunk.Valid, C.Allocate;
      chunks[j].Sane();
      C.AllocateOk(chunks[j].View());
      hide C.ChunkOk;
      p := chunks[j].Allocate();
      assert ChunkViews() == old(ChunkViews())[j := chunks[j].View()];
    }

    /** Scans the chunks for one with a free block. */
    method FirstAvailable() returns (j: nat)
      requires Valid()
      ensures j == M.FirstAvailable(ChunkViews(), 0) <= |chunks|
    {
      hide MemoryChunk.Valid, Separate;
      j := 0;
      while j < |chunks|
        invariant 0 <= j <= |chunks|
        invariant M.FirstAvailable(ChunkViews(), 0) == M.FirstAvailable(ChunkViews(), j)
      {
        chunks[j].Sane();
        if chunks[j].freeBlocks != 0 {
          return;
        }
        j := j + 1;
      }
    }

    /** Serves the request from an existing chunk, without calling the provider. */
    method TryAllocate() returns (p: Addr)
      requires Valid()
      modifies chunks
      ensures Valid() && chunks == old(chunks)
      ensures var m := old(View());
              var j := M.FirstAvailable(m.chunks, 0);
              if j < |m.chunks| then View() == M.TakeFrom(m, j) && p == C.Allocate(m.chunks[j]).1 && p != 0
              else View() == m && p == 0
    {
      hide MemoryChunk.Valid, C.Allocate, Separate;
      var j := FirstAvailable();
      if j == |chunks| {
        return 0;
      }
      p := TakeFrom(j);
    }

    /** The growing pool's allocation: an existing block if there is one, else one of a new chunk. */
    method Allocate(supply: M.Supply) returns (p: Addr)
      requires Valid() && M.Supplied(View(), supply)
      modifies this, Footprint()
      ensures Valid() && fresh(Footprint() - old(Footprint()))
      ensures (View(), p) == M.Allocate(old(View()), supply)
      ensures M.ManagerOk(old(View())) ==> M.AllocateExactly(old(View()), supply, View(), p)
    {
      if M.ManagerOk(View()) {
        M.AllocateExact(View(), supply);
      }
      p := TakeOrGrow(supply);
      hide *;
    }

    method TakeOrGrow(supply: M.Supply) returns (p: Addr)
      requires Valid() && M.Supplied(View(), supply)
      modifies this, Footprint()
      ensures Valid() && fresh(Footprint() - old(Footprint()))
      ensures (View(), p) == M.Allocate(old(View()), supply)
    {
      hide Valid, C.Allocate, M.Grow, M.Grows, M.TakeFrom;
      InFootprint();
      p := TryAllocate();
      assert Footprint() == old(Footprint());
      if p == 0 {
        p := AllocateFresh(supply);
      }
    }

    /** Serves the request from a new chunk, if there can be one; called when no chunk has a block. */
    method AllocateFresh(supply: M.Supply) returns (p: Addr)
      requires Valid() && M.Supplied(View(), supply)
      modifies this
      ensures Valid() && fresh(Footprint() - old(Footprint()))
      ensures var m := old(View());
              if M.Grows(m, supply)
              then
                && View() == M.TakeFrom(M.Grow(m, supply), |m.chunks|)
                && p == C.Allocate(M.Grow(m, supply).chunks[|m.chunks|]).1
              else View() == m && p == 0
    {
      hide MemoryChunk.Valid, C.Allocate, Separate, M.LayoutOf;
      var grown := Grow(supply);
      if grown {
        p := TakeFrom(|chunks| - 1);
      } else {
        p := 0;
      }
    }

    method FindChunk(p: Addr) returns (j: nat)
      requires Valid()
      ensures j == M.FindChunk(ChunkViews(), p, 0) <= |chunks|
    {
      j := 0;
      while j < |chunks|
        invariant 0 <= j <= |chunks|
        invariant M.FindChunk(ChunkViews(), p, 0) == M.FindChunk(ChunkViews(), p, j)
      {
        if C.Owned(chunks[j].storage, chunks[j].stride, chunks[j].count, p) {
          return;
        }
        j := j + 1;
      }
    }

    method CountEmpty() returns (n: nat)
      requires Valid()
      ensures n == M.EmptyCount(ChunkViews())
    {
      hide MemoryChunk.Valid, Separate;
      ghost var views := ChunkViews();
      n := 0;
      for i := 0 to |chunks|
        invariant n == M.EmptyCount(views[..i])
      {
        assert views[..i + 1][..i] == views[..i];
        chunks[i].Sane();
        if chunks[i].freeBlocks == chunks[i].count {
          n := n + 1;
        }
      }
      assert views[..|chunks|] == views;
    }

    /** Only the chunk that just became free is considered, and only beyond the spare count. */
    method ReclaimIfAllowed(j: nat)
      requires Valid() && j < |chunks|
      modifies this
      ensures Valid() && View() == M.Reclaim(old(View()), j) && Footprint() <= old(Footprint())
    {
      hide MemoryChunk.Valid, Separate, M.EmptyCount;
      chunks[j].Sane();
      if chunks[j].freeBlocks != chunks[j].count {
        return;
      }
      var empty := CountEmpty();
      if empty <= opts.spare {
        return;
      }
      Remove(j);
    }

    method Remove(j: nat)
      requires Valid() && j < |chunks|
      modifies `chunks
      ensures Valid() && Footprint() <= old(Footprint()) && |chunks| == |old(chunks)| - 1
      ensures ChunkViews() == M.Without(old(ChunkViews()), j)
    {
      hide MemoryChunk.Valid, Separate;
      Spliced(chunks, j);
      hide ObjectsOf;
      chunks := chunks[..j] + chunks[j + 1..];
    }

    /** Gives `p` back to the chunk around it. */
    method Return(p: Addr) returns (r: C.FreeResult)
      requires Valid()
      modifies this, Footprint()
      ensures Valid() && Footprint() <= old(Footprint())
      ensures M.ManagerOkForRun(old(View())) && (View(), r) == M.Deallocate(old(View()), p)
    {
      hide MemoryChunk.Valid, C.Deallocate;
      Strides();
      if p == 0 {
        return C.NullIgnored;
      }
      var j := FindChunk(p);
      if j == |chunks| {
        return C.InvalidPointer;
      }
      assert chunks[j] in Footprint() && chunks[j].bytes in Footprint();
      hide Separate;
      r := chunks[j].Deallocate(p);
      assert ChunkViews() == old(ChunkViews())[j := chunks[j].View()];
      if r == C.Freed {
        ReclaimIfAllowed(j);
      }
    }

    /**
     Frees the start of a block in use and nothing else. The chunk goes exactly when that was its last
     block in use and enough other chunks are idle.
     */
    method Deallocate(p: Addr) returns (r: C.FreeResult)
      requires Valid()
      modifies this, Footprint()
      ensures Valid() && Footprint() <= old(Footprint())
      ensures M.ManagerOkForRun(old(View())) && (View(), r) == M.Deallocate(old(View()), p)
      ensures r != C.Freed ==> View() == old(View())
      ensures M.FreeExact(old(View()), p, View(), r)
    {
      Sane();
      M.DeallocateExact(View(), p);
      r := Return(p);
      hide *;
    }

    /** Gives up the last chunk. */
    method DropLast() returns (c: MemoryChunk)
      requires Valid() && |chunks| > 0
      modifies this
      ensures Valid() && Footprint() <= old(Footprint()) && View() == M.DropLast(old(View()))
      ensures c.View() == old(View()).chunks[|old(chunks)| - 1]
    {
      hide MemoryChunk.Valid, Separate;
      c := chunks[|chunks| - 1];
      Remove(|chunks| - 1);
    }

    /** A client writes into a block it owns: no chunk, and no list, notices. */
    method ClientWrites(j: nat, k: nat, at: nat, data: seq<Byte>)
      requires Valid() && j < |chunks| && k < chunks[j].count && k !in chunks[j].stack
      requires at + |data| <= chunks[j].stride
      modifies chunks[j].bytes
      ensures Valid() && View() == old(View())
    {
      hide MemoryChunk.Valid;
      chunks[j].ClientWrites(k, at, data);
      assert ChunkViews() == old(ChunkViews());
    }
  }
}
