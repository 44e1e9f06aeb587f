/**
 The segregated allocator's vector of pools: distinct managers whose chunks and memory do not
 overlap, so that work on one pool leaves all others, and their free lists, alone.
 */
module PoolVectors {
  import opened Provider
  import opened BlockMemory
  import opened MemoryChunks
  import opened ChunkManagers
  import C = ChunkModel
  import M = ManagerModel

  /** One manager after the other, none of them grown yet. */
  method Build(opts: seq<M.Options>) returns (built: seq<ChunkManager>)
    requires forall i :: 0 <= i < |opts| ==> M.Usable(opts[i])
    ensures |built| == |opts| && fresh(built)
    ensures forall k :: 0 <= k < |opts| ==>
              built[k].Valid() && built[k].View() == M.Unbuilt(opts[k]) && built[k].chunks == []
    ensures forall k, l :: 0 <= k < l < |opts| ==> built[k] != built[l]
  {
    hide MemoryChunk.Valid, M.Usable, Separate;
    built := [];
    for i := 0 to |opts|
      invariant |built| == i && fresh(built)
      invariant forall k :: 0 <= k < i ==>
        built[k].Valid() && built[k].View() == M.Unbuilt(opts[k]) && built[k].chunks == []
      invariant forall k, l :: 0 <= k < l < i ==> built[k] != built[l]
    {
      var pool := new ChunkManager(opts[i]);
      built := built + [pool];
    }
  }

  class PoolVector {
    const pools: seq<ChunkManager>
    /** The values of the pools, and every object behind them. */
    ghost var contents: seq<M.Manager>
    ghost var repr: set<object>

    ghost predicate Valid()
      reads this, repr
    {
      && this in repr && (forall p :: p in pools ==> p in repr) && Chunks() <= repr && Memory() <= repr
      && Sound() && contents == Views()
    }

    ghost function Chunks(): set<MemoryChunk>
      reads pools
    {
      set i, c | 0 <= i < |pools| && c in pools[i].chunks :: c
    }

    ghost function Memory(): set<array<Byte>>
      reads pools
    {
      set c | c in Chunks() :: c.bytes
    }

    ghost function Objects(): set<object>
      reads pools
    {
      (set p | p in pools :: p as object) + Chunks() + Memory()
    }

    ghost function Views(): (views: seq<M.Manager>)
      reads pools, Chunks()
      ensures |views| == |pools| && forall i :: 0 <= i < |pools| ==> views[i] == pools[i].View()
    {
      ViewsOf(|pools|)
    }

    ghost function ViewsOf(n: nat): (views: seq<M.Manager>)
      requires n <= |pools|
      reads pools, Chunks()
      ensures |views| == n && forall i :: 0 <= i < n ==> views[i] == pools[i].View()
    {
      if n == 0 then [] else ViewsOf(n - 1) + [InChunks(n - 1); pools[n - 1].View()]
    }

    lemma InChunks(i: nat)
      requires i < |pools|
      ensures forall c :: c in pools[i].chunks ==> c in Chunks() && c.bytes in Memory()
    {
    }

    ghost predicate Sound()
      reads pools, Chunks(), Memory()
    {
      && (forall i :: 0 <= i < |pools| ==> (InChunks(i); pools[i].Valid()))
      && (forall i, j :: 0 <= i < j < |pools| ==>
            pools[i] != pools[j] && pools[i].Footprint() !! pools[j].Footprint())
    }

    /** Everything of pool `i` is in the representation, and nothing of it in another pool. */
    lemma OwnPart(i: nat)
      requires Sound() && i < |pools|
      ensures pools[i] in Objects() && pools[i].Footprint() <= Objects()
      ensures forall c :: c in pools[i].chunks ==> c in pools[i].Footprint() && c.bytes in pools[i].Footprint()
      ensures pools[i].Valid() && Views()[i] == pools[i].View()
      ensures forall j :: 0 <= j < |pools| && j != i ==> pools[j] != pools[i] && pools[j] !in pools[i].Footprint()
      ensures forall j, c :: 0 <= j < |pools| && j != i && c in pools[j].chunks ==>
                c !in pools[i].chunks && c !in pools[i].Footprint() && c.bytes !in pools[i].Footprint()
    {
      InChunks(i);
      forall j | 0 <= j < |pools| && j != i
        ensures pools[i].Footprint() !! pools[j].Footprint() && pools[i] != pools[j]
        ensures forall c :: c in pools[j].chunks ==> c in pools[j].Footprint() && c.bytes in pools[j].Footprint()
      {
      }
      assert pools[i] in pools;
    }

    /** Pool `j` and everything behind it are as they were. */
    twostate predicate Kept(j: nat)
      requires j < |pools|
      reads pools, Chunks(), Memory()
    {
      InChunks(j);
      pools[j].Valid() && pools[j].View() == old(pools[j].View()) && pools[j].Footprint() == old(pools[j].Footprint())
    }

    twostate lemma Untouched(j: nat)
      requires j < |pools| && old(Sound()) && unchanged(pools[j])
      requires forall c :: c in pools[j].chunks ==> unchanged(c) && unchanged(c.bytes)
      ensures Kept(j)
    {
      hide MemoryChunk.Valid, ChunkManager.Valid;
      assert old(pools[j].Valid());
      pools[j].Untouched();
    }

    /** Only pool `i` has moved, and what it got is new. */
    twostate lemma OnlyPool(i: nat)
      requires i < |pools| && old(Sound()) && pools[i].Valid()
      requires forall j :: 0 <= j < |pools| && j != i ==> Kept(j)
      requires fresh(pools[i].Footprint() - old(pools[i].Footprint()))
      ensures Sound() && Views() == old(Views())[i := pools[i].View()]
    {
      hide MemoryChunk.Valid, ChunkManager.Valid, Views, ViewsOf;
      OnlyView(i);
      forall j | 0 <= j < |pools| && j != i
        ensures pools[j].Valid() && pools[j].Footprint() == old(pools[j].Footprint())
        ensures pools[i].Footprint() !! pools[j].Footprint()
      {
        assert Kept(j);
        assert old(pools[i].Footprint() !! pools[j].Footprint());
      }
    }

    twostate lemma OnlyView(i: nat)
      requires i < |pools| && forall j :: 0 <= j < |pools| && j != i ==> Kept(j)
      ensures Views() == old(Views())[i := pools[i].View()]
    {
      ghost var before := old(Views());
      hide MemoryChunk.Valid, ChunkManager.Valid, ChunkManager.Footprint, ChunkManager.View;
      forall j | 0 <= j < |pools|
        ensures Views()[j] == before[i := pools[i].View()][j]
      {
        assert j != i ==> Kept(j);
      }
    }

    twostate lemma Grown(i: nat)
      requires i < |pools| && forall j :: 0 <= j < |pools| && j != i ==>
          pools[j].Footprint() == old(pools[j].Footprint())
      ensures Objects() <= old(Objects()) + pools[i].Footprint() && old(pools[i].Footprint()) <= old(Objects())
    {
      assert forall j :: 0 <= j < |pools| ==> old(pools[j].Footprint()) <= old(Objects());
      assert forall c :: c in Chunks() ==>
          exists j :: 0 <= j < |pools| && c in pools[j].Footprint() && c.bytes in pools[j].Footprint();
    }

    /** Pools without chunks are apart, whatever they are. */
    lemma Unfilled()
      requires forall i :: 0 <= i < |pools| ==> pools[i].Valid() && pools[i].chunks == []
      requires forall i, j :: 0 <= i < j < |pools| ==> pools[i] != pools[j]
      ensures Sound() && Objects() == set p | p in pools :: p as object
    {
      hide MemoryChunk.Valid, ChunkManager.Valid;
      assert Chunks() == {} && Memory() == {};
    }

    constructor (opts: seq<M.Options>)
      requires forall i :: 0 <= i < |opts| ==> M.Usable(opts[i])
      ensures Valid() && fresh(repr) && |contents| == |opts|
      ensures forall i :: 0 <= i < |opts| ==> contents[i] == M.Unbuilt(opts[i])
    {
      hide MemoryChunk.Valid, M.Usable, M.Unbuilt, Sound, ViewsOf, Chunks, Memory, Objects;
      var built := Build(opts);
      pools := built;
      new;
      Unfilled();
      Refresh(Views(), Objects());
    }

    lemma OwnsByChunks(i: nat, p: Addr)
      requires Sound() && i < |pools|
      ensures pools[i].Valid()
      ensures M.PoolOwns(Views()[i], p) <==> M.FindChunk(pools[i].ChunkViews(), p, 0) < |pools[i].chunks|
    {
      hide MemoryChunk.Valid, ChunkManager.Valid, M.FindChunk;
    }

    /** The first pool with a chunk around `p`. */
    method FindOwner(p: Addr) returns (i: nat)
      requires Valid()
      ensures i <= |contents| && (i < |contents| ==> M.PoolOwns(contents[i], p))
          && forall k :: 0 <= k < i ==> !M.PoolOwns(contents[k], p)
    {
      hide *;
      Known();
      i := 0;
      while i < |pools|
        invariant Valid() && i <= |pools| == |contents| && forall k :: 0 <= k < i ==> !M.PoolOwns(contents[k], p)
      {
        Known();
        OwnsByChunks(i, p);
        var j := pools[i].FindChunk(p);
        if j < |pools[i].chunks| {
          return;
        }
        i := i + 1;
      }
    }

    /** If no other pool was touched, the vector is in order and only pool `i` has moved. */
    twostate lemma Settle(i: nat)
      requires i < |pools| && old(Sound()) && pools[i].Valid()
      requires forall j :: 0 <= j < |pools| && j != i ==> Kept(j)
      requires fresh(pools[i].Footprint() - old(pools[i].Footprint()))
      ensures Sound() && Views() == old(Views())[i := pools[i].View()]
      ensures Objects() <= old(Objects()) + pools[i].Footprint() && old(pools[i].Footprint()) <= old(Objects())
    {
      OnlyPool(i);
      forall j | 0 <= j < |pools| && j != i
        ensures pools[j].Footprint() == old(pools[j].Footprint())
      {
        assert Kept(j);
      }
      hide MemoryChunk.Valid, ChunkManager.Valid, Sound, Objects, Kept;
      Grown(i);
    }

    method GrowIn(i: nat, supply: M.Supply, ghost before: seq<M.Manager>, ghost all: set<object>) returns (grown: bool)
      requires Sound() && before == Views() && Objects() <= all && i < |before|
      requires M.Usable(before[i].opts) && M.Supplied(before[i], supply)
      modifies Objects()
      ensures Sound() && fresh(Objects() - all) && Views() == before[i := M.Grow(before[i], supply)]
      ensures grown == M.Grows(before[i], supply)
    {
      hide *;
      OwnPart(i);
      grown := pools[i].Grow(supply);
      forall j | 0 <= j < |pools| && j != i
        ensures Kept(j)
      {
        Untouched(j);
      }
      Settle(i);
    }

    method AllocateIn(i: nat, supply: M.Supply, ghost before: seq<M.Manager>, ghost all: set<object>) returns (p: Addr)
      requires Sound() && before == Views() && Objects() <= all && i < |before|
      requires M.Usable(before[i].opts) && M.Supplied(before[i], supply)
      modifies Objects()
      ensures Sound() && fresh(Objects() - all) && Views() == before[i := M.Allocate(before[i], supply).0]
      ensures p == M.Allocate(before[i], supply).1
    {
      hide *;
      OwnPart(i);
      p := pools[i].Allocate(supply);
      forall j | 0 <= j < |pools| && j != i
        ensures Kept(j)
      {
        Untouched(j);
      }
      Settle(i);
    }

    method DeallocateIn(i: nat, p: Addr, ghost before: seq<M.Manager>, ghost all: set<object>) returns (r: C.FreeResult)
      requires Sound() && before == Views() && Objects() <= all && i < |before| && M.ManagerOkForRun(before[i])
      modifies Objects()
      ensures Sound() && fresh(Objects() - all) && Views() == before[i := M.Deallocate(before[i], p).0]
      ensures r == M.Deallocate(before[i], p).1
    {
      hide *;
      OwnPart(i);
      r := pools[i].Deallocate(p);
      forall j | 0 <= j < |pools| && j != i
        ensures Kept(j)
      {
        Untouched(j);
      }
      Settle(i);
    }

    method DropLastIn(i: nat, ghost before: seq<M.Manager>, ghost all: set<object>) returns (c: MemoryChunk)
      requires Sound() && before == Views() && Objects() <= all && i < |before| && |before[i].chunks| > 0
      modifies Objects()
      ensures Sound() && fresh(Objects() - all) && Views() == before[i := M.DropLast(before[i])]
      ensures c.View() == before[i].chunks[|before[i].chunks| - 1]
    {
      hide *;
      OwnPart(i);
      Counts(i);
      c := pools[i].DropLast();
      forall j | 0 <= j < |pools| && j != i
        ensures Kept(j)
      {
        Untouched(j);
      }
      Settle(i);
    }

    method ClientWritesIn(i: nat, j: nat, k: nat, at: nat, data: seq<Byte>, ghost before: seq<M.Manager>,
                          ghost all: set<object>)
      requires Sound() && before == Views() && Objects() <= all && i < |before| && j < |before[i].chunks|
      requires k < before[i].chunks[j].count && k !in before[i].chunks[j].free
      requires at + |data| <= before[i].chunks[j].stride
      modifies Objects()
      ensures Sound() && fresh(Objects() - all) && Views() == before
    {
      hide *;
      OwnPart(i);
      Counts(i);
      pools[i].ClientWrites(j, k, at, data);
      forall l | 0 <= l < |pools| && l != i
        ensures Kept(l)
      {
        Untouched(l);
      }
      Settle(i);
    }

    /** The chunks of pool `i`, as objects and as values. */
    lemma Counts(i: nat)
      requires i < |pools|
      ensures |pools[i].chunks| == |Views()[i].chunks|
      ensures forall j :: 0 <= j < |pools[i].chunks| ==>
                var c, v := pools[i].chunks[j], Views()[i].chunks[j];
                c.bytes in pools[i].Footprint() && v.count == c.count && v.stride == c.stride && v.free == c.stack
    {
      hide MemoryChunk.Valid, ChunkManager.Valid;
    }

    /** Brings the ghost fields up to date. */
    ghost method Refresh(views: seq<M.Manager>, objects: set<object>)
      requires Sound() && views == Views() && objects == Objects()
      modifies `contents, `repr
      ensures Valid() && contents == views && repr == {this} + objects
    {
      hide Sound, Views, ViewsOf, ObjectsOf;
      contents := views;
      repr := {this} + objects;
    }

    // ---- the operations, on the values of the pools ----

    lemma Known()
      requires Valid()
      ensures Sound() && contents == Views() && |contents| == |pools| == Size() && Objects() <= repr && this in repr
      ensures forall i :: 0 <= i < |pools| ==> contents[i] == pools[i].View()
    {
      hide Sound, Views, ViewsOf;
    }

    function Size(): nat {
      |pools|
    }

    method ChunkCount(i: nat) returns (n: nat)
      requires Valid() && i < |contents|
      ensures n == |contents[i].chunks|
    {
      hide *;
      Known();
      Counts(i);
      n := |pools[i].chunks|;
    }

    method Grow(i: nat, supply: M.Supply) returns (grown: bool)
      requires Valid() && i < |contents| && M.Usable(contents[i].opts) && M.Supplied(contents[i], supply)
      modifies repr
      ensures Valid() && fresh(repr - old(repr)) && contents == old(contents)[i := M.Grow(old(contents[i]), supply)]
      ensures grown == M.Grows(old(contents[i]), supply)
    {
      ghost var before, all := contents, repr;
      hide *;
      Known();
      grown := GrowIn(i, supply, before, all);
      Refresh(Views(), Objects());
    }

    method Allocate(i: nat, supply: M.Supply) returns (p: Addr)
      requires Valid() && i < |contents| && M.Usable(contents[i].opts) && M.Supplied(contents[i], supply)
      modifies repr
      ensures Valid() && fresh(repr - old(repr))
      ensures contents == old(contents)[i := M.Allocate(old(contents[i]), supply).0]
      ensures p == M.Allocate(old(contents[i]), supply).1
    {
      ghost var before, all := contents, repr;
      hide *;
      Known();
      p := AllocateIn(i, supply, before, all);
      Refresh(Views(), Objects());
    }

    method Deallocate(i: nat, p: Addr) returns (r: C.FreeResult)
      requires Valid() && i < |contents| && M.ManagerOkForRun(contents[i])
      modifies repr
      ensures Valid() && fresh(repr - old(repr))
      ensures contents == old(contents)[i := M.Deallocate(old(contents[i]), p).0]
      ensures r == M.Deallocate(old(contents[i]), p).1
    {
      ghost var before, all := contents, repr;
      hide *;
      Known();
      r := DeallocateIn(i, p, before, all);
      Refresh(Views(), Objects());
    }

    /** Gives up the last chunk of pool `i`. */
    method DropLast(i: nat) returns (c: MemoryChunk)
      requires Valid() && i < |contents| && |contents[i].chunks| > 0
      modifies repr
      ensures Valid() && fresh(repr - old(repr)) && c.View() == old(contents[i]).chunks[|old(contents[i]).chunks| - 1]
      ensures contents == old(contents)[i := M.DropLast(old(contents[i]))]
    {
      hide *;
      ghost var before, all := contents, repr;
      Known();
      c := DropLastIn(i, before, all);
      Refresh(Views(), Objects());
    }

    /** A client writes into a block it owns: no pool notices. */
    method ClientWrites(i: nat, j: nat, k: nat, at: nat, data: seq<Byte>)
      requires Valid() && i < |contents| && j < |contents[i].chunks|
      requires k < contents[i].chunks[j].count && k !in contents[i].chunks[j].free
      requires at + |data| <= contents[i].chunks[j].stride
      modifies repr
      ensures Valid() && fresh(repr - old(repr)) && contents == old(contents)
    {
      hide *;
      ghost var before, all := contents, repr;
      Known();
      ClientWritesIn(i, j, k, at, data, before, all);
      Refresh(Views(), Objects());
    }
  }
}
