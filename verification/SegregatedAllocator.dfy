/**
 The segregated allocator as an object over its pools: construction, allocation, both
 deallocations and destruction, with every call to the provider entered in a ledger.
 */
module SegregatedAllocators {
  import opened SizeClasses
  import opened Provider
  import opened Growth
  import opened ChunkModel
  import opened ManagerModel
  import opened BlockMemory
  import opened PoolVectors
  import opened SegregatedModel
  import opened SegregatedSnapshot
  import opened SegregatedProofs

  // ---- construction ----

  function ClassOptions(size: nat, initialBlocks: nat, growth: Policy, spare: nat): Options {
    Options(size, initialBlocks, size, growth, spare)
  }

  /** All pools in place, none grown yet, nothing taken from the provider. */
  function Blank(classes: seq<nat>, initialBlocks: nat, growth: Policy, spare: nat): Seg {
    Seg(classes,
        seq(|classes|, i requires 0 <= i < |classes| =>
          Manager(ClassOptions(classes[i], initialBlocks, growth, spare), [], initialBlocks, 0)),
        map[], Ledger(map[], false), map[])
  }

  lemma BlankOk(classes: seq<nat>, initialBlocks: nat, growth: Policy, spare: nat)
    requires ValidClasses(classes) && ValidPolicy(growth, initialBlocks)
    ensures SegOk(Blank(classes, initialBlocks, growth, spare))
  {
    var s := Blank(classes, initialBlocks, growth, spare);
    forall i | 0 <= i < |s.pools|
      ensures PoolOk(s.classes, s.pools[i], i)
    {
      assert s.pools[i].chunks == [];
    }
    assert PlacedChunks(s.pools) == {};
  }

  /** The initial growth of pool `i`. */
  function GrowPool(s: Seg, i: nat, supply: Supply): Seg
    requires i < |s.pools| && Usable(s.pools[i].opts)
  {
    s.(pools := s.pools[i := Grow(s.pools[i], supply)], ledger := GrowLedger(s.ledger, s.pools[i], supply))
  }

  predicate AllUsable(s: Seg) {
    forall k :: 0 <= k < |s.pools| ==> Usable(s.pools[k].opts)
  }

  ghost predicate MayGrow(s: Seg, i: nat, supply: Supply)
    requires i < |s.pools| && Usable(s.pools[i].opts)
  {
    var r := LayoutOf(s.pools[i]);
    r.Ok? && r.value.alignment != 0 ==> MayAnswer(s.ledger.out, LayoutLease(r.value), supply.answer)
  }

  /** Pools before `i` have grown once, the others not yet. */
  predicate Starting(s: Seg, i: nat) {
    && s.fallback == map[] && s.live == map[] && AllUsable(s)
    && forall k :: 0 <= k < |s.pools| ==> |s.pools[k].chunks| == if k < i then 1 else 0
  }

  predicate GrowsAt(s: Seg, i: nat, supply: Supply) {
    i < |s.pools| && Usable(s.pools[i].opts) && Grows(s.pools[i], supply)
  }

  /** From `s` to `n` the pools before `i` have grown, each with its own supply, and the others are as they were. */
  predicate AllGrown(s: Seg, n: Seg, supplies: seq<Supply>, i: nat) {
    && n.classes == s.classes && |n.pools| == |s.pools| == |supplies| && AllUsable(s)
    && forall k :: 0 <= k < |s.pools| ==> n.pools[k] == if k < i then Grow(s.pools[k], supplies[k]) else s.pools[k]
  }

  lemma GrowOneMore(s: Seg, n: Seg, supplies: seq<Supply>, i: nat)
    requires AllGrown(s, n, supplies, i) && i < |s.pools|
    ensures Usable(n.pools[i].opts) && AllGrown(s, GrowPool(n, i, supplies[i]), supplies, i + 1)
    ensures GrowsAt(s, i, supplies[i]) <==> Grows(n.pools[i], supplies[i])
  {
    hide Grow, Grows, Usable;
    assert Usable(s.pools[i].opts);
  }

  lemma GrowStarting(s: Seg, i: nat, supplies: seq<Supply>)
    requires Starting(s, i) && i < |s.pools| == |supplies|
    requires AllUsable(s) && Provided(s, supplies, i)
    ensures Usable(s.pools[i].opts) && MayGrow(s, i, supplies[i])
    ensures var n := GrowPool(s, i, supplies[i]); AllUsable(n) && Provided(n, supplies, i + 1)
    ensures Grows(s.pools[i], supplies[i]) ==> Starting(GrowPool(s, i, supplies[i]), i + 1)
  {
    hide LayoutOf, Fresh, MayGrow;
  }

  /** The provider answers the constructor's requests, from pool `i` on, by its contract. */
  ghost predicate Provided(s: Seg, supplies: seq<Supply>, i: nat)
    requires |supplies| == |s.pools| && i <= |s.pools| && AllUsable(s)
    decreases |s.pools| - i
  {
    i == |s.pools| ||
    (&& MayGrow(s, i, supplies[i])
     && Provided(GrowPool(s, i, supplies[i]), supplies, i + 1))
  }

  // ---- destruction ----

  /** What is outstanding is exactly the storage of the chunks in `chunks`. */
  ghost predicate Outstanding(chunks: set<Placed>, out: map<Addr, Lease>) {
    && (forall x :: x in chunks ==> x.1.storage in out && out[x.1.storage] == ChunkLease(x.1))
    && (forall x, y :: x in chunks && y in chunks && x.1.storage == y.1.storage ==> x == y)
    && (forall a :: a in out ==> exists x: Placed :: x in chunks && x.1.storage == a)
  }

  lemma AfterDirects(s: Seg, out: map<Addr, Lease>)
    requires SegOk(s) && out == s.ledger.out - s.fallback.Keys
    ensures Outstanding(PlacedChunks(s.pools), out)
  {
    var v := View(s);
    hide PoolOk, LiveOk, PlacedChunks, ValidClasses;
    forall x | x in v.chunks
      ensures x.1.storage in out && out[x.1.storage] == ChunkLease(x.1)
    {
      assert PlacedOk(v, x);
      hide LedgerOk;
    }
    forall a | a in out
      ensures exists x: Placed :: x in v.chunks && x.1.storage == a
    {
      assert Backed(v, a);
      hide ChunksOk;
    }
  }

  lemma DestroyFacts(s: Seg)
    requires SegOk(s)
    ensures !s.ledger.misused && forall a :: a in s.fallback ==> a in s.ledger.out && s.ledger.out[a] == s.fallback[a]
    ensures forall i :: 0 <= i < |s.pools| ==> DistinctStorage(s.pools[i].chunks)
  {
    forall i | 0 <= i < |s.pools|
      ensures DistinctStorage(s.pools[i].chunks)
    {
      assert PoolOk(s.classes, s.pools[i], i);
    }
  }

  /** Of the direct allocations in `all`, those not in `left` have been given back. */
  ghost predicate PartlyReturned(out: map<Addr, Lease>, all: map<Addr, Lease>, left: map<Addr, Lease>, l: Ledger) {
    && (forall a :: a in all ==> a in out && out[a] == all[a])
    && (forall a :: a in left ==> a in all && left[a] == all[a])
    && !l.misused && l.out == out - (all.Keys - left.Keys)
  }

  lemma ReturnOne(out: map<Addr, Lease>, all: map<Addr, Lease>, left: map<Addr, Lease>, l: Ledger, a: Addr)
    requires PartlyReturned(out, all, left, l) && a in left
    ensures PartlyReturned(out, all, left - {a}, GiveBack(l, a, left[a]))
    ensures (left - {a}).Keys == left.Keys - {a}
  {
    assert all.Keys - (left - {a}).Keys == (all.Keys - left.Keys) + {a};
  }

  lemma DropOutstanding(chunks: set<Placed>, out: map<Addr, Lease>, x: Placed)
    requires Outstanding(chunks, out) && x in chunks
    ensures Outstanding(chunks - {x}, out - {x.1.storage})
  {
    var rest := chunks - {x};
    forall a | a in out - {x.1.storage}
      ensures exists y: Placed :: y in rest && y.1.storage == a
    {
      var y: Placed :| y in chunks && y.1.storage == a;
      assert y in rest;
    }
  }

  /** The chunks still there are all that is outstanding, and no pool lists one twice. */
  ghost predicate Returning(pools: seq<Manager>, l: Ledger) {
    && !l.misused && Outstanding(PlacedChunks(pools), l.out)
    && forall i :: 0 <= i < |pools| ==> DistinctStorage(pools[i].chunks)
  }

  /** Giving back the last chunk of pool `i`. */
  lemma ReturnChunk(pools: seq<Manager>, i: nat, m: Manager, l: Ledger)
    requires i < |pools| && |pools[i].chunks| > 0 && Returning(pools, l)
    requires m.chunks == Without(pools[i].chunks, |pools[i].chunks| - 1)
    ensures var c := pools[i].chunks[|pools[i].chunks| - 1];
            Returning(pools[i := m], GiveBack(l, c.storage, ChunkLease(c)))
  {
    var last := |pools[i].chunks| - 1;
    var c := pools[i].chunks[last];
    PlacedRemove(pools, i, m, last);
    DropOutstanding(PlacedChunks(pools), l.out, (i, c));
    WithoutDistinct(pools[i].chunks, last);
    hide PlacedChunks;
  }

  lemma NoChunks(pools: seq<Manager>)
    requires forall i :: 0 <= i < |pools| ==> pools[i].chunks == []
    ensures PlacedChunks(pools) == {}
  {
  }

  /** What an allocation needs of its pool, and what it leads to. */
  lemma Routed(s: Seg, size: nat, alignment: nat, supply: Supply)
    requires SegOk(s) && Ready(s) && Supplies(s, size, alignment, supply)
    ensures ValidClasses(s.classes)
    ensures var choice := Select(s.classes, Normalized(size), alignment);
            choice.Selected? ==>
              choice.index < |s.pools| && Usable(s.pools[choice.index].opts) && Supplied(s.pools[choice.index], supply)
    ensures var (n, out) := SegregatedModel.Allocate(s, size, alignment, supply);
            && SegOk(n) && Ready(n) && !out.DuplicateAddress?
            && (if out.Pointer? then out.p !in s.live && n.live == s.live[out.p := Request(Normalized(size), alignment)]
                else n == s)
  {
    var choice := Select(s.classes, Normalized(size), alignment);
    if choice.Selected? {
      ClassLayout(s, choice.index);
      hide Select;
      assert ValidClasses(s.classes);
      hide SegOk;
      GrowReady(s, choice.index, supply);
    }
    hide SegregatedModel.Allocate;
    AllocateKeepsOk(s, size, alignment, supply);
    ReadyOk(SegregatedModel.Allocate(s, size, alignment, supply).0);
  }

  lemma AllocateFailed(m: Manager, supply: Supply)
    requires ManagerOk(m) && Supplied(m, supply) && ManagerModel.Allocate(m, supply).1 == 0
    ensures ManagerModel.Allocate(m, supply).0 == m
  {
    var j := FirstAvailable(m.chunks, 0);
    if j < |m.chunks| {
      AllocateOk(m.chunks[j]);
    } else if Grows(m, supply) {
      GrowOk(m, supply);
      AllocateOk(Grow(m, supply).chunks[|m.chunks|]);
    }
  }

  lemma FreeRefused(m: Manager, p: Addr)
    requires ManagerOkForRun(m) && ManagerModel.Deallocate(m, p).1 != Freed
    ensures ManagerModel.Deallocate(m, p).0 == m
  {
  }

  lemma SizedKeepsOk(s: Seg, p: Addr, size: nat, alignment: nat)
    requires SegOk(s) && Ready(s)
    ensures var (n, out) := DeallocateSized(s, p, size, alignment);
            && SegOk(n) && Ready(n) && ValidClasses(s.classes)
            && (out != Done ==> n == s)
            && (p in s.live ==>
                  (out == Done <==>
                     if p in s.fallback then s.live[p] == Request(Normalized(size), alignment)
                     else Select(s.classes, size, alignment) == Select(s.classes, s.live[p].size, s.live[p].alignment)))
  {
    assert ValidClasses(s.classes);
    hide SegOk, Ready, Select, SegregatedModel.Deallocate;
    DeallocateKeepsOk(s, p);
    if p in s.live {
      SizedFreeExact(s, p, size, alignment);
    }
    ReadyOk(DeallocateSized(s, p, size, alignment).0);
  }

  // ---- clients ----

  datatype ClientOp = Call(op: SegOp) | Scribble(pool: nat, chunk: nat, block: nat, at: nat, data: seq<Byte>)

  ghost predicate InUseBlock(s: Seg, i: nat, j: nat, k: nat) {
    && i < |s.pools| && j < |s.pools[i].chunks|
    && k < s.pools[i].chunks[j].count && k !in s.pools[i].chunks[j].free
  }

  /** Clients write only to blocks in use; the provider answers by its contract. */
  ghost predicate Admissible(s: Seg, op: ClientOp) {
    && Ready(s)
    && match op
       case Call(o) => o.Alloc? ==> Supplies(s, o.size, o.alignment, o.supply)
       case Scribble(i, j, k, at, data) => InUseBlock(s, i, j, k) && at + |data| <= s.pools[i].chunks[j].stride
  }

  function NextState(s: Seg, op: ClientOp): Seg
    requires Ready(s)
  {
    match op
    case Call(o) => SegregatedProofs.Step(s, o)
    case Scribble(_, _, _, _, _) => s
  }

  ghost predicate IsClientRun(states: seq<Seg>, ops: seq<ClientOp>) {
    && |states| == |ops| + 1
    && forall i :: 0 <= i < |ops| ==> Admissible(states[i], ops[i]) && states[i + 1] == NextState(states[i], ops[i])
  }

  ghost predicate AsRequested(live: map<Addr, Request>, p: Addr)
    requires p in live
  {
    live[p].alignment != 0 && p % live[p].alignment == 0
  }

  ghost predicate Disjoint(live: map<Addr, Request>, p: Addr, q: Addr)
    requires p in live && q in live
  {
    Apart(Bytes(p, live[p]), Bytes(q, live[q]))
  }

  lemma LiveApart(s: Seg, p: Addr, q: Addr)
    requires SegOk(s) && p in s.live && q in s.live && p != q
    ensures AsRequested(s.live, p) && Disjoint(s.live, p, q)
  {
    LiveAllocationsDisjoint(View(s), p, q);
  }

  class SegregatedAllocator {
    const classes: seq<nat>
    const pools: PoolVector
    var fallback: map<Addr, Lease>
    ghost var ledger: Ledger
    ghost var live: map<Addr, Request>

    ghost function View(): Seg
      reads this, pools
    {
      Seg(classes, pools.contents, fallback, ledger, live)
    }

    /** The pools are in order, and apart from the allocator's own fields. */
    ghost predicate Settled()
      reads this, pools, pools.repr
    {
      pools.Valid() && this !in pools.repr && pools in pools.repr && |pools.contents| == pools.Size()
    }

    ghost predicate Valid()
      reads this, pools, pools.repr
    {
      Settled() && SegOk(View()) && Ready(View())
    }

    /** The pools before their initial growth. */
    constructor (classes: seq<nat>, initialBlocks: nat, growth: Policy, spare: nat)
      requires ValidClasses(classes) && ValidPolicy(growth, initialBlocks)
      ensures Valid() && fresh(pools.repr) && View() == Blank(classes, initialBlocks, growth, spare)
    {
      this.classes := classes;
      var opts := seq(|classes|,
          i requires 0 <= i < |classes| => ClassOptions(classes[i], initialBlocks, growth, spare));
      pools := new PoolVector(opts);
      fallback := map[];
      ledger := Ledger(map[], false);
      live := map[];
      new;
      hide PoolVector.Valid;
      BlankOk(classes, initialBlocks, growth, spare);
      assert pools.contents == Blank(classes, initialBlocks, growth, spare).pools;
      hide SegOk;
      ReadyOk(View());
    }

    /**
     The rest of construction: every pool grows once, in order. If one cannot, the pools built
     so far are destroyed and the provider has everything back.
     */
    method Start(supplies: seq<Supply>) returns (ok: bool)
      requires Valid() && Starting(View(), 0)
      requires |supplies| == |View().pools| && AllUsable(View()) && Provided(View(), supplies, 0)
      modifies this, pools.repr
      ensures ok ==> Valid() && Starting(View(), |View().pools|) && AllGrown(old(View()), View(), supplies, |supplies|)
      ensures !ok ==> ledger == Ledger(map[], false)
      ensures ok <==> forall i :: 0 <= i < |supplies| ==> GrowsAt(old(View()), i, supplies[i])
    {
      hide PoolVector.Valid;
      for i := 0 to |supplies|
        invariant Valid() && |View().pools| == |supplies| && fresh(pools.repr - old(pools.repr))
        invariant AllGrown(old(View()), View(), supplies, i)
        invariant forall k :: 0 <= k < i ==> GrowsAt(old(View()), k, supplies[k])
        invariant Starting(View(), i) && AllUsable(View()) && Provided(View(), supplies, i)
      {
        GrowStarting(View(), i, supplies);
        GrowOneMore(old(View()), View(), supplies, i);
        hide AllGrown, GrowsAt, SegOk, Ready, Starting, Provided, MayGrow, GrowPool, AllUsable;
        var grown := StartPool(i, supplies[i]);
        if !grown {
          Destroy();
          return false;
        }
      }
      return true;
    }

    method StartPool(i: nat, supply: Supply) returns (grown: bool)
      requires Valid() && i < |View().pools| && Usable(View().pools[i].opts) && MayGrow(View(), i, supply)
      modifies this, pools.repr
      ensures Valid() && fresh(pools.repr - old(pools.repr)) && View() == GrowPool(old(View()), i, supply)
      ensures grown == Grows(old(View()).pools[i], supply)
    {
      hide PoolVector.Valid;
      ghost var s := View();
      ClassLayout(s, i);
      hide SegOk, LayoutOf, MayAnswer, GrowLedger;
      GrowReady(s, i, supply);
      ReadyOk(GrowPool(s, i, supply));
      ledger := GrowLedger(ledger, s.pools[i], supply);
      grown := pools.Grow(i, supply);
      pools.Known();
    }

    /** Destruction returns every provider allocation once, with its own size and alignment, and none is left. */
    method Destroy()
      requires Valid()
      modifies this, pools.repr
      ensures ledger == Ledger(map[], false)
      ensures fallback == map[] && forall k :: 0 <= k < |View().pools| ==> View().pools[k].chunks == []
    {
      ghost var s := View();
      hide PlacedChunks, SegOk, ManagerOk, ValidClasses, PoolVector.Valid;
      DestroyFacts(s);
      ReleaseDirects();
      AfterDirects(s, ledger.out);
      assert pools.contents == s.pools;
      for i := 0 to pools.Size()
        invariant Settled() && fresh(pools.repr - old(pools.repr)) && fallback == map[]
        invariant Returning(pools.contents, ledger)
        invariant forall k :: 0 <= k < i ==> pools.contents[k].chunks == []
      {
        hide Returning;
        ReleaseChunks(i);
      }
      NoChunks(pools.contents);
    }

    /** Gives up the chunks of pool `i`, one by one. */
    method ReleaseChunks(i: nat)
      requires Settled() && i < |pools.contents| && Returning(pools.contents, ledger)
      modifies `ledger, pools.repr
      ensures Settled() && fresh(pools.repr - old(pools.repr)) && Returning(pools.contents, ledger)
      ensures |pools.contents| == |old(pools.contents)|
      ensures pools.contents == old(pools.contents)[i := pools.contents[i]] && pools.contents[i].chunks == []
    {
      hide PoolVector.Valid, Returning;
      var left := pools.ChunkCount(i);
      while left > 0
        invariant Settled() && fresh(pools.repr - old(pools.repr)) && Returning(pools.contents, ledger)
        invariant |pools.contents| == |old(pools.contents)| && left == |pools.contents[i].chunks|
        invariant pools.contents == old(pools.contents)[i := pools.contents[i]]
        decreases left
      {
        ReleaseLast(i);
        left := left - 1;
      }
    }

    method ReleaseLast(i: nat)
      requires Settled() && i < |pools.contents| && Returning(pools.contents, ledger) && |pools.contents[i].chunks| > 0
      modifies `ledger, pools.repr
      ensures Settled() && fresh(pools.repr - old(pools.repr)) && Returning(pools.contents, ledger)
      ensures pools.contents == old(pools.contents)[i := DropLast(old(pools.contents[i]))]
    {
      hide PoolVector.Valid, Returning;
      ghost var views := pools.contents;
      ReturnChunk(views, i, DropLast(views[i]), ledger);
      var c := pools.DropLast(i);
      pools.Known();
      ledger := GiveBack(ledger, c.storage, ChunkLease(c.View()));
    }

    method ReleaseDirects()
      requires !ledger.misused && forall a :: a in fallback ==> a in ledger.out && ledger.out[a] == fallback[a]
      modifies `fallback, `ledger
      ensures fallback == map[] && ledger == Ledger(old(ledger.out) - old(fallback).Keys, false)
    {
      ghost var all, out := fallback, ledger.out;
      while fallback != map[]
        invariant PartlyReturned(out, all, fallback, ledger)
        decreases |fallback.Keys|
      {
        var a :| a in fallback;
        ReturnOne(out, all, fallback, ledger, a);
        hide PartlyReturned;
        ledger := GiveBack(ledger, a, fallback[a]);
        fallback := fallback - {a};
      }
    }

    /** `owning_class`. */
    method OwningClass(p: Addr) returns (i: nat)
      requires Settled()
      ensures i == SegregatedModel.OwningClass(pools.contents, p, 0)
    {
      hide PoolVector.Valid, ManagerModel.FindChunk;
      i := pools.FindOwner(p);
    }

    method AllocatePooled(i: nat, size: nat, alignment: nat, supply: Supply) returns (out: AllocOutcome)
      requires Valid() && i < |View().pools| && Usable(View().pools[i].opts) && Supplied(View().pools[i], supply)
      modifies this, pools.repr
      ensures Settled() && fresh(pools.repr - old(pools.repr))
      ensures (View(), out) == SegregatedModel.AllocatePooled(old(View()), i, size, alignment, supply)
    {
      hide SegOk, GrowLedger, ManagerModel.Allocate, PoolVector.Valid;
      ghost var views := pools.contents;
      ghost var m := views[i];
      if FirstAvailable(m.chunks, 0) == |m.chunks| {
        ledger := GrowLedger(ledger, m, supply);
      }
      var p := pools.Allocate(i, supply);
      pools.Known();
      if p == 0 {
        PoolManager(old(View()), i);
        AllocateFailed(m, supply);
        assert views[i := m] == views;
        return OutOfMemory;
      }
      live := live[p := Request(size, alignment)];
      return Pointer(p);
    }

    /**
     Any request, with its exact outcome: the address returned was not live, and a failure,
     whatever its cause, leaves the allocator and the provider's ledger as they were.
     */
    method Allocate(size: nat, alignment: nat, supply: Supply) returns (out: AllocOutcome)
      requires Valid() && Supplies(View(), size, alignment, supply)
      modifies this, pools.repr
      ensures Valid() && fresh(pools.repr - old(pools.repr))
      ensures (View(), out) == SegregatedModel.Allocate(old(View()), size, alignment, supply)
      ensures !out.DuplicateAddress?
      ensures if out.Pointer? then out.p !in old(live)
          && live == old(live)[out.p := Request(Normalized(size), alignment)]
              else View() == old(View())
      ensures AllocatesExactly(old(View()), size, alignment, supply, View(), out)
    {
      ghost var s := View();
      hide SegOk, Ready, Supplies, PoolVector.Valid, ValidClasses, AllocatesExactly;
      Routed(s, size, alignment, supply);
      AllocateOutcome(s, size, alignment, supply);
      var n := Normalized(size);
      var choice := BinarySelect(classes, n, alignment);
      hide Select, SegregatedModel.AllocatePooled;
      if choice.Selected? {
        out := AllocatePooled(choice.index, n, alignment, supply);
      } else if choice.InvalidAlignment? {
        return BadAlignment;
      } else {
        out := AllocateDirect(n, alignment, supply);
      }
    }

    /** The provider block is given back at once if it cannot be recorded. */
    method AllocateDirect(size: nat, alignment: nat, supply: Supply) returns (out: AllocOutcome)
      modifies this
      ensures (View(), out) == SegregatedModel.AllocateDirect(old(View()), size, alignment, supply)
    {
      if supply.answer.None? {
        return OutOfMemory;
      }
      var p, lease := supply.answer.value, Lease(size, alignment);
      ledger := Grant(ledger, p, lease);
      if !supply.bookkeeping || p in fallback {
        ledger := GiveBack(ledger, p, lease);
        return if supply.bookkeeping then DuplicateAddress else OutOfMemory;
      }
      fallback := fallback[p := lease];
      live := live[p := Request(size, alignment)];
      return Pointer(p);
    }

    /** A live address is taken back, once; anything else is refused and nothing changes. */
    method Deallocate(p: Addr) returns (out: FreeOutcome)
      requires Valid()
      modifies this, pools.repr
      ensures Valid() && fresh(pools.repr - old(pools.repr))
      ensures (View(), out) == SegregatedModel.Deallocate(old(View()), p)
      ensures out == Done <==> p in old(live)
      ensures if out == Done then live == old(live) - {p} else View() == old(View())
      ensures out == Done ==> FreesExactly(old(View()), View(), p)
    {
      ghost var s := View();
      FreeOutcomeExact(s, p);
      DeallocateKeepsOk(s, p);
      ReadyOk(SegregatedModel.Deallocate(s, p).0);
      if p in s.live {
        FreeOfLiveSucceeds(s, p);
      }
      hide SegOk, SegregatedModel.Deallocate, FreesExactly;
      out := Release(p);
    }

    method Release(p: Addr) returns (out: FreeOutcome)
      requires Settled() && Ready(View())
      modifies this, pools.repr
      ensures Settled() && fresh(pools.repr - old(pools.repr))
      ensures (View(), out) == SegregatedModel.Deallocate(old(View()), p)
    {
      hide SegregatedModel.FreePooled, Ready, PoolVector.Valid, GiveBack, PoolOwns;
      if p == 0 {
        return Nothing;
      }
      var i := OwningClass(p);
      if i < pools.Size() {
        out := FreePooled(i, p);
      } else if p !in fallback {
        return NotOwned;
      } else {
        ledger := GiveBack(ledger, p, fallback[p]);
        fallback := fallback - {p};
        live := live - {p};
        return Done;
      }
    }

    method FreePooled(i: nat, p: Addr) returns (out: FreeOutcome)
      requires Settled() && Ready(View()) && i < |View().pools| && PoolOwns(View().pools[i], p)
      modifies this, pools.repr
      ensures Settled() && fresh(pools.repr - old(pools.repr))
      ensures (View(), out) == SegregatedModel.FreePooled(old(View()), i, p)
    {
      hide ManagerModel.Deallocate, PoolVector.Valid, ManagerModel.FindChunk, GiveBack;
      ghost var views := pools.contents;
      ghost var m := views[i];
      var r := pools.Deallocate(i, p);
      pools.Known();
      if r != Freed {
        FreeRefused(m, p);
        assert views[i := m] == views;
        return if r == DoubleFree then NotInUse else NotOwned;
      }
      if |pools.contents[i].chunks| < |m.chunks| {
        ghost var c := m.chunks[FindChunk(m.chunks, p, 0)];
        ledger := GiveBack(ledger, c.storage, ChunkLease(c));
      }
      live := live - {p};
      return Done;
    }

    /** The sized overload frees a live address exactly when the route agrees with its request. */
    method DeallocateSized(p: Addr, size: nat, alignment: nat) returns (out: FreeOutcome)
      requires Valid()
      modifies this, pools.repr
      ensures Valid() && fresh(pools.repr - old(pools.repr))
      ensures (View(), out) == SegregatedModel.DeallocateSized(old(View()), p, size, alignment)
      ensures p in old(live) ==>
                (out == Done <==>
                   if p in old(fallback) then old(live)[p] == Request(Normalized(size), alignment)
                   else Select(classes, size, alignment) == Select(classes, old(live)[p].size, old(live)[p].alignment))
      ensures out != Done ==> View() == old(View())
    {
      ghost var s := View();
      SizedKeepsOk(s, p, size, alignment);
      hide SegOk, Ready, Select, SegregatedModel.DeallocateSized;
      out := ReleaseSized(p, size, alignment);
    }

    method ReleaseSized(p: Addr, size: nat, alignment: nat) returns (out: FreeOutcome)
      requires Settled() && Ready(View()) && ValidClasses(classes)
      modifies this, pools.repr
      ensures Settled() && fresh(pools.repr - old(pools.repr))
      ensures (View(), out) == SegregatedModel.DeallocateSized(old(View()), p, size, alignment)
    {
      hide SegregatedModel.Deallocate, Ready, Select, ValidClasses;
      if p == 0 {
        return Nothing;
      }
      var i := OwningClass(p);
      if i < pools.Size() {
        var choice := BinarySelect(classes, size, alignment);
        if choice.InvalidAlignment? {
          return BadFreeAlignment;
        }
        if choice != Selected(i) {
          return WrongClass;
        }
        out := Release(p);
      } else if p !in fallback {
        return NotOwned;
      } else if fallback[p] != Lease(Normalized(size), alignment) {
        return WrongClass;
      } else {
        out := Release(p);
      }
    }

    /** A client writes into a block in use: nothing the allocator knows changes. */
    method ClientWrites(i: nat, j: nat, k: nat, at: nat, data: seq<Byte>)
      requires Valid() && InUseBlock(View(), i, j, k) && at + |data| <= View().pools[i].chunks[j].stride
      modifies pools.repr
      ensures Valid() && fresh(pools.repr - old(pools.repr)) && View() == old(View())
    {
      hide SegOk, Ready, PoolVector.Valid;
      pools.ClientWrites(i, j, k, at, data);
      pools.Known();
    }

    /** One call, or one write by a client into memory it was given. */
    method Perform(op: ClientOp)
      requires Valid() && Admissible(View(), op)
      modifies this, pools.repr
      ensures Valid() && fresh(pools.repr - old(pools.repr)) && View() == NextState(old(View()), op)
    {
      hide SegOk, Ready, Supplies, PoolVector.Valid;
      hide SegregatedModel.Allocate, SegregatedModel.Deallocate, SegregatedModel.DeallocateSized;
      match op {
        case Call(Alloc(size, alignment, supply)) => var out := Allocate(size, alignment, supply);
        case Call(Free(p)) => var out := Deallocate(p);
        case Call(FreeSized(p, size, alignment)) => var out := DeallocateSized(p, size, alignment);
        case Scribble(i, j, k, at, data) => ClientWrites(i, j, k, at, data);
      }
    }

    /**
     Any run of the object, its free lists threaded through memory its clients overwrite at will,
     follows the value model, and at its end live allocations are aligned and disjoint.
     */
    method Run(ops: seq<ClientOp>, ghost states: seq<Seg>)
      requires Valid() && IsClientRun(states, ops) && states[0] == View()
      modifies this, pools.repr
      ensures Valid() && View() == states[|ops|]
      ensures forall p, q :: p in live && q in live && p != q ==> AsRequested(live, p) && Disjoint(live, p, q)
    {
      hide SegOk, PoolVector.Valid, NextState, Admissible;
      for i := 0 to |ops|
        invariant Valid() && fresh(pools.repr - old(pools.repr)) && View() == states[i]
      {
        Perform(ops[i]);
      }
      forall p, q | p in live && q in live && p != q
        ensures AsRequested(live, p) && Disjoint(live, p, q)
      {
        LiveApart(View(), p, q);
      }
    }
  }
}
