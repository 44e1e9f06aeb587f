/**
 The monotonic arena on values: bump allocation over a growing list of chunks, rollback
 of the last allocation, the two reset policies, and object creation with nested
 allocation and throwing constructors.
 */
module ArenaModel {
  import opened Bits
  import opened Provider
  import opened Growth

  /** alignof(std::max_align_t). */
  const MAX_ALIGN: nat := 16

  datatype Chunk = Chunk(storage: Addr, capacity: nat, alignment: nat, offset: nat)

  datatype Options = Options(initialSize: nat, initialAlignment: nat, growth: Policy, retainAll: bool)

  /** `validate_options`: the options as the arena stores them, or None when it throws. */
  function Validate(o: Options): Option<Options> {
    if o.initialSize == 0 || !IsPowerOfTwo(o.initialAlignment) then None
    else if o.growth.Geometric? && o.growth.factor < 2 then None
    else if o.growth.maximum != 0 && o.growth.maximum < o.initialSize then None
    else Some(o.(initialAlignment := Max(o.initialAlignment, MAX_ALIGN)))
  }

  // ---- one chunk ----

  datatype Allocation = Allocation(pointer: Addr, previous: nat, consumed: nat)

  /** The bytes `std::align` skips to reach a multiple of `alignment`. */
  function Padding(address: nat, alignment: nat): nat
    requires alignment != 0
  {
    if address % alignment == 0 then 0 else alignment - address % alignment
  }

  /** `std::align` on the free tail of the chunk: fails when padding and size do not fit. */
  function TryAllocate(c: Chunk, size: nat, alignment: nat): Option<Allocation>
    requires alignment != 0
  {
    if alignment > c.alignment || c.offset > c.capacity then None
    else
      var pad := Padding(c.storage + c.offset, alignment);
      if pad + size > c.capacity - c.offset then None
      else Some(Allocation(c.storage + c.offset + pad, c.offset, pad + size))
  }

  function Advanced(c: Chunk, a: Allocation): Chunk {
    c.(offset := a.previous + a.consumed)
  }

  function Rewound(c: Chunk, previous: nat): Chunk {
    if previous <= c.offset then c.(offset := previous) else c
  }

  // ---- the arena ----

  datatype Last = NoLast | Last(chunk: nat, pointer: Addr, previous: nat, consumed: nat)

  /** `used` is the gauge current_used_bytes; `growths` counts chunks added since the size sequence started. */
  datatype Arena = Arena(
    opts: Options,
    chunks: seq<Chunk>,
    current: nat,
    nextSize: nat,
    last: Last,
    used: int,
    destructors: seq<Addr>,
    growths: nat)

  datatype Outcome = Pointer(p: Addr) | InvalidAlignment | OutOfMemory | LogicError

  /** The first chunk from `from` on that can serve the request. */
  function FirstFit(chunks: seq<Chunk>, from: nat, size: nat, alignment: nat): (i: nat)
    requires alignment != 0
    ensures from <= |chunks| ==> from <= i <= |chunks|
    ensures i < |chunks| ==> TryAllocate(chunks[i], size, alignment).Some?
    ensures forall j :: from <= j < i && j < |chunks| ==> TryAllocate(chunks[j], size, alignment).None?
    decreases |chunks| - from
  {
    if from >= |chunks| then from
    else if TryAllocate(chunks[from], size, alignment).Some? then from
    else FirstFit(chunks, from + 1, size, alignment)
  }

  /** Book an allocation in chunk `i`. */
  function Place(a: Arena, i: nat, al: Allocation): Arena
    requires i < |a.chunks|
  {
    a.(chunks := a.chunks[i := Advanced(a.chunks[i], al)],
       current := i,
       used := a.used + al.consumed,
       last := Last(i, al.pointer, al.previous, al.consumed))
  }

  function ChunkSizeFor(a: Arena, size: nat): nat {
    Max(a.nextSize, size)
  }

  function ChunkAlignmentFor(a: Arena, alignment: nat): nat {
    Max(a.opts.initialAlignment, alignment)
  }

  function AddChunk(a: Arena, storage: Addr, size: nat, alignment: nat): Arena
    requires a.opts.growth.Geometric? ==> a.opts.growth.factor != 0
  {
    a.(chunks := a.chunks + [Chunk(storage, ChunkSizeFor(a, size), ChunkAlignmentFor(a, alignment), 0)],
       current := |a.chunks|,
       nextSize := NextSize(a.opts.growth, a.opts.initialSize, a.nextSize),
       growths := a.growths + 1)
  }

  function Normalized(size: nat): nat {
    Max(size, 1)
  }

  /** Whether a request gets as far as asking the provider for a new chunk. */
  predicate AsksProvider(a: Arena, size: nat, alignment: nat) {
    IsPowerOfTwo(alignment) && FirstFit(a.chunks, a.current, Normalized(size), alignment) >= |a.chunks|
  }

  function Allocate(a: Arena, size: nat, alignment: nat, answer: Option<Addr>): (Arena, Outcome)
    requires a.opts.growth.Geometric? ==> a.opts.growth.factor != 0
  {
    if !IsPowerOfTwo(alignment) then (a, InvalidAlignment)
    else
      var n := Normalized(size);
      var i := FirstFit(a.chunks, a.current, n, alignment);
      if i < |a.chunks| then
        var al := TryAllocate(a.chunks[i], n, alignment).value;
        (Place(a, i, al), Pointer(al.pointer))
      else if answer.None? then (a, OutOfMemory)
      else
        var b := AddChunk(a, answer.value, n, alignment);
        match TryAllocate(b.chunks[|a.chunks|], n, alignment)
        case None => (b, LogicError)
        case Some(al) => (Place(b, |a.chunks|, al), Pointer(al.pointer))
  }

  /** A rollback of `p` rewinds only when `p` is still the latest allocation. */
  predicate Rewinds(a: Arena, p: Addr) {
    a.last.Last? && a.last.pointer == p && a.last.chunk < |a.chunks|
  }

  /** `rollback_last`. */
  function Rollback(a: Arena, p: Addr): Arena {
    if Rewinds(a, p) then
      a.(chunks := a.chunks[a.last.chunk := Rewound(a.chunks[a.last.chunk], a.last.previous)],
         used := a.used - a.last.consumed,
         last := NoLast)
    else a
  }

  function Emptied(chunks: seq<Chunk>): seq<Chunk> {
    seq(|chunks|, i requires 0 <= i < |chunks| => chunks[i].(offset := 0))
  }

  /** `reset`: registered objects are gone, every retained chunk is rewound to its start. */
  function Reset(a: Arena): Arena
    requires |a.chunks| > 0
    requires a.opts.growth.Geometric? ==> a.opts.growth.factor != 0
  {
    var b := a.(used := 0, current := 0, last := NoLast, destructors := []);
    if a.opts.retainAll then b.(chunks := Emptied(a.chunks))
    else
      b.(chunks := Emptied(a.chunks[..1]),
         nextSize := NextSize(a.opts.growth, a.opts.initialSize, a.opts.initialSize),
         growths := 0)
  }

  /** The constructor, given the provider's answer for the initial chunk. */
  function New(o: Options, storage: Addr): Arena
    requires o.growth.Geometric? ==> o.growth.factor != 0
  {
    Arena(o, [Chunk(storage, o.initialSize, o.initialAlignment, 0)], 0,
          NextSize(o.growth, o.initialSize, o.initialSize), NoLast, 0, [], 0)
  }

  // ---- clients: raw allocation and object creation ----

  /** How a constructor call ends. Registration of a destructor may itself throw. */
  datatype Ending = Throws | Completes | Registers | RegistrationThrows

  /**
   An operation between two resets. A constructor may itself allocate and create from the
   same arena before it ends; `answer` is what the provider says if it is asked.
   */
  datatype Op =
    | Alloc(size: nat, alignment: nat, answer: Option<Addr>)
    | Create(size: nat, alignment: nat, answer: Option<Addr>, body: seq<Op>, ending: Ending)

  /** An allocation as the client sees it. */
  datatype Grant = Grant(region: Region, alignment: nat)

  /**
   `live` and `trace` are history: the allocations not rolled back since the last reset, and all
   addresses returned.
   */
  datatype World = World(arena: Arena, live: seq<Grant>, trace: seq<Addr>, providerCalls: nat)

  function AllocateIn(w: World, size: nat, alignment: nat, answer: Option<Addr>): (r: (World, Outcome))
    requires w.arena.opts.growth.Geometric? ==> w.arena.opts.growth.factor != 0
    ensures r.0.arena.opts == w.arena.opts && |r.0.arena.chunks| >= |w.arena.chunks|
  {
    var (a, out) := Allocate(w.arena, size, alignment, answer);
    var calls := w.providerCalls + if AsksProvider(w.arena, size, alignment) then 1 else 0;
    if out.Pointer? then
      (World(a, w.live + [Grant(Region(out.p, Normalized(size)), alignment)], w.trace + [out.p], calls), out)
    else (w.(arena := a, providerCalls := calls), out)
  }

  /** Rolling back releases the last live allocation exactly when the arena rewinds. */
  function RollbackIn(w: World, p: Addr): (r: World)
    ensures r.arena.opts == w.arena.opts && |r.arena.chunks| >= |w.arena.chunks|
  {
    var a := Rollback(w.arena, p);
    if Rewinds(w.arena, p) && |w.live| > 0 then w.(arena := a, live := w.live[..|w.live| - 1])
    else w.(arena := a)
  }

  function ResetIn(w: World): World
    requires |w.arena.chunks| > 0
    requires w.arena.opts.growth.Geometric? ==> w.arena.opts.growth.factor != 0
  {
    w.(arena := Reset(w.arena), live := [])
  }

  /** What `create` does once the constructor call has ended. */
  function Finish(w: World, p: Addr, ending: Ending): (r: World)
    ensures r.arena.opts == w.arena.opts && |r.arena.chunks| >= |w.arena.chunks|
  {
    match ending
    case Throws => RollbackIn(w, p)
    case RegistrationThrows => RollbackIn(w, p)
    case Completes => w
    case Registers => w.(arena := w.arena.(destructors := w.arena.destructors + [p]))
  }

  function Exec(w: World, op: Op): (r: World)
    requires w.arena.opts.growth.Geometric? ==> w.arena.opts.growth.factor != 0
    ensures r.arena.opts == w.arena.opts && |r.arena.chunks| >= |w.arena.chunks|
    decreases op
  {
    var (w1, out) := AllocateIn(w, op.size, op.alignment, op.answer);
    if op.Alloc? || !out.Pointer? then w1
    else
      Finish(ExecAll(w1, op.body), out.p, op.ending)
  }

  function ExecAll(w: World, ops: seq<Op>): (r: World)
    requires w.arena.opts.growth.Geometric? ==> w.arena.opts.growth.factor != 0
    ensures r.arena.opts == w.arena.opts && |r.arena.chunks| >= |w.arena.chunks|
    decreases ops
  {
    if |ops| == 0 then w else ExecAll(Exec(w, ops[0]), ops[1..])
  }
}
