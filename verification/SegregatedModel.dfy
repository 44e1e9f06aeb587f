/**
 The segregated allocator on values: one growing pool per size class, a map of direct
 (fallback) allocations, and the ledger of what the provider has outstanding.
 */
module SegregatedModel {
  import opened Bits
  import opened SizeClasses
  import opened Provider
  import opened BlockLayouts
  import opened ChunkModel
  import opened ManagerModel

  /** A provider allocation has to be given back with the size and alignment it was requested with. */
  datatype Lease = Lease(bytes: nat, alignment: nat)

  /** What the provider has handed out and not got back; `misused` records any wrong return. */
  datatype Ledger = Ledger(out: map<Addr, Lease>, misused: bool)

  function Grant(l: Ledger, a: Addr, lease: Lease): Ledger {
    l.(out := l.out[a := lease])
  }

  function GiveBack(l: Ledger, a: Addr, lease: Lease): Ledger {
    if a in l.out && l.out[a] == lease then l.(out := l.out - {a}) else l.(misused := true)
  }

  function LeasedRegion(a: Addr, lease: Lease): Region {
    Region(a, lease.bytes)
  }

  /** The provider's contract, against everything outstanding. */
  ghost predicate MayAnswer(out: map<Addr, Lease>, lease: Lease, answer: Option<Addr>)
    requires lease.alignment != 0
  {
    answer.Some? ==>
      && answer.value != 0
      && answer.value % lease.alignment == 0
      && answer.value + lease.bytes <= SIZE_LIMIT
      && forall b :: b in out ==> Apart(LeasedRegion(b, out[b]), LeasedRegion(answer.value, lease))
  }

  /** `live` is history: what was asked for at each address returned and not yet freed. */
  datatype Request = Request(size: nat, alignment: nat)

  datatype Seg = Seg(
    classes: seq<nat>,
    pools: seq<Manager>,
    fallback: map<Addr, Lease>,
    ledger: Ledger,
    live: map<Addr, Request>)

  datatype AllocOutcome = Pointer(p: Addr) | BadAlignment | OutOfMemory | DuplicateAddress

  datatype FreeOutcome = Done | Nothing | NotOwned | NotInUse | WrongClass | BadFreeAlignment

  predicate Ready(s: Seg) {
    && |s.pools| == |s.classes|
    && forall i :: 0 <= i < |s.pools| ==> ManagerOkForRun(s.pools[i])
  }

  function ChunkLease(c: Chunk): Lease {
    Lease(c.Size(), c.alignment)
  }

  function LayoutLease(l: BlockLayout): Lease {
    Lease(l.storageSize, l.alignment)
  }

  /** The provider's side of an attempt to grow: a block whose bookkeeping fails is given back at once. */
  function GrowLedger(l: Ledger, m: Manager, supply: Supply): Ledger
    requires Usable(m.opts)
  {
    var layout := LayoutOf(m);
    if !layout.Ok? || supply.answer.None? then l
    else
      var g := Grant(l, supply.answer.value, LayoutLease(layout.value));
      if supply.bookkeeping then g else GiveBack(g, supply.answer.value, LayoutLease(layout.value))
  }

  function AllocatePooled(s: Seg, i: nat, size: nat, alignment: nat, supply: Supply): (Seg, AllocOutcome)
    requires Ready(s) && i < |s.pools|
  {
    var m := s.pools[i];
    var ledger := if FirstAvailable(m.chunks, 0) < |m.chunks| then s.ledger else GrowLedger(s.ledger, m, supply);
    var (n, p) := ManagerModel.Allocate(m, supply);
    if p == 0 then (s.(ledger := ledger), OutOfMemory)
    else (s.(pools := s.pools[i := n], ledger := ledger, live := s.live[p := Request(size, alignment)]), Pointer(p))
  }

  function AllocateDirect(s: Seg, size: nat, alignment: nat, supply: Supply): (Seg, AllocOutcome) {
    if supply.answer.None? then (s, OutOfMemory)
    else
      var p, lease := supply.answer.value, Lease(size, alignment);
      var g := Grant(s.ledger, p, lease);
      if !supply.bookkeeping then (s.(ledger := GiveBack(g, p, lease)), OutOfMemory)
      else if p in s.fallback then (s.(ledger := GiveBack(g, p, lease)), DuplicateAddress)
      else (s.(fallback := s.fallback[p := lease], ledger := g, live := s.live[p := Request(size, alignment)]),
          Pointer(p))
  }

  function Allocate(s: Seg, size: nat, alignment: nat, supply: Supply): (Seg, AllocOutcome)
    requires Ready(s)
  {
    var n := Normalized(size);
    match Select(s.classes, n, alignment)
    case InvalidAlignment => (s, BadAlignment)
    case Selected(i) => AllocatePooled(s, i, n, alignment, supply)
    case NoClass => AllocateDirect(s, n, alignment, supply)
  }

  /** `owning_class`: the first pool with a chunk around `p`. */
  function OwningClass(pools: seq<Manager>, p: Addr, from: nat): (i: nat)
    requires from <= |pools|
    ensures from <= i <= |pools|
    ensures i < |pools| ==> PoolOwns(pools[i], p)
    ensures forall k :: from <= k < i ==> !PoolOwns(pools[k], p)
    decreases |pools| - from
  {
    if from == |pools| || PoolOwns(pools[from], p) then from else OwningClass(pools, p, from + 1)
  }

  function FreePooled(s: Seg, i: nat, p: Addr): (Seg, FreeOutcome)
    requires Ready(s) && i < |s.pools| && PoolOwns(s.pools[i], p)
  {
    var m := s.pools[i];
    var (n, r) := ManagerModel.Deallocate(m, p);
    if r == Freed then
      var c := m.chunks[FindChunk(m.chunks, p, 0)];
      var ledger := if |n.chunks| < |m.chunks| then GiveBack(s.ledger, c.storage, ChunkLease(c)) else s.ledger;
      (s.(pools := s.pools[i := n], ledger := ledger, live := s.live - {p}), Done)
    else (s, if r == DoubleFree then NotInUse else NotOwned)
  }

  function Deallocate(s: Seg, p: Addr): (Seg, FreeOutcome)
    requires Ready(s)
  {
    if p == 0 then (s, Nothing)
    else
      var i := OwningClass(s.pools, p, 0);
      if i < |s.pools| then FreePooled(s, i, p)
      else if p !in s.fallback then (s, NotOwned)
      else (s.(fallback := s.fallback - {p}, ledger := GiveBack(s.ledger, p, s.fallback[p]), live := s.live - {p}),
          Done)
  }

  /** The sized overload checks the route first, then frees. */
  function DeallocateSized(s: Seg, p: Addr, size: nat, alignment: nat): (Seg, FreeOutcome)
    requires Ready(s)
  {
    if p == 0 then (s, Nothing)
    else
      var i := OwningClass(s.pools, p, 0);
      if i < |s.pools| then
        match Select(s.classes, size, alignment)
        case InvalidAlignment => (s, BadFreeAlignment)
        case NoClass => (s, WrongClass)
        case Selected(c) => if c != i then (s, WrongClass) else Deallocate(s, p)
      else if p !in s.fallback then (s, NotOwned)
      else if s.fallback[p] != Lease(Normalized(size), alignment) then (s, WrongClass)
      else Deallocate(s, p)
  }
}
