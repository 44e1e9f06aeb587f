/**
 Exactly what each operation of the arena does: which requests a chunk serves and where, what a failed
 creation leaves behind, which objects are registered, and what a reset keeps.
 */
module ArenaOutcomes {
  import opened Bits
  import opened Provider
  import opened Growth
  import opened ArenaModel
  import opened ArenaProofs
  import opened ArenaReplay

  // ---- one chunk ----

  /** The chunk has room for an aligned block that starts `k` bytes past its cursor. */
  ghost predicate Room(c: Chunk, size: nat, alignment: nat, k: nat) {
    && alignment != 0 && alignment <= c.alignment
    && (c.storage + c.offset + k) % alignment == 0 && c.offset + k + size <= c.capacity
  }

  ghost predicate LeastRoom(c: Chunk, size: nat, alignment: nat, k: nat) {
    Room(c, size, alignment, k) && forall l: nat :: l < k ==> !Room(c, size, alignment, l)
  }

  ghost predicate HasRoom(c: Chunk, size: nat, alignment: nat) {
    exists k: nat :: Room(c, size, alignment, k)
  }

  /** A chunk serves a request exactly when it has room for it, at the first aligned place behind its cursor. */
  lemma TryAllocateExact(c: Chunk, size: nat, alignment: nat)
    requires ChunkOk(c) && alignment != 0
    ensures TryAllocate(c, size, alignment).Some? <==> HasRoom(c, size, alignment)
    ensures forall k: nat :: LeastRoom(c, size, alignment, k) ==>
              TryAllocate(c, size, alignment) == Some(Allocation(c.storage + c.offset + k, c.offset, k + size))
  {
    var start := c.storage + c.offset;
    var pad := Padding(start, alignment);
    PaddingAligns(start, alignment);
    forall k: nat | Room(c, size, alignment, k)
      ensures pad <= k && Room(c, size, alignment, pad)
    {
      if k < pad {
        PaddingIsLeast(start, alignment, k);
      }
    }
    hide Padding;
    if TryAllocate(c, size, alignment).Some? {
      assert Room(c, size, alignment, pad);
    }
    forall k: nat | LeastRoom(c, size, alignment, k)
      ensures k == pad
    {
      assert !(pad < k);
    }
  }

  // ---- allocate ----

  /** Chunk `i` is the first, from the current one on, with room for the request. */
  ghost predicate FirstRoom(a: Arena, i: nat, size: nat, alignment: nat) {
    && a.current <= i < |a.chunks| && HasRoom(a.chunks[i], size, alignment)
    && forall j :: a.current <= j < i ==> !HasRoom(a.chunks[j], size, alignment)
  }

  ghost predicate NoRoom(a: Arena, size: nat, alignment: nat) {
    forall j :: a.current <= j < |a.chunks| ==> !HasRoom(a.chunks[j], size, alignment)
  }

  /** From `a` to `b` the request was placed `k` bytes past the cursor of chunk `i`, which is the current one now. */
  ghost predicate PlacedAt(a: Arena, b: Arena, i: nat, k: nat, size: nat) {
    && i < |a.chunks|
    && b == a.(chunks := a.chunks[i := a.chunks[i].(offset := a.chunks[i].offset + k + size)],
               current := i, used := a.used + k + size, last := b.last)
  }

  /** A new chunk of the closed-form size, or larger if the request is, with the request at its start. */
  ghost predicate PlacedInNew(a: Arena, b: Arena, p: Addr, size: nat, alignment: nat) {
    var capacity := Max(ClosedForm(a.opts.growth, a.opts.initialSize, a.growths + 1), size);
    b == a.(chunks := a.chunks + [Chunk(p, capacity, Max(a.opts.initialAlignment, alignment), size)],
            current := |a.chunks|, used := a.used + size, growths := a.growths + 1,
            nextSize := b.nextSize, last := b.last)
  }

  ghost predicate AllocatesExactly(a: Arena, size: nat, alignment: nat, answer: Option<Addr>, b: Arena, out: Outcome) {
    if !IsPowerOfTwo(alignment) then out == InvalidAlignment && b == a
    else
      var n := Normalized(size);
      && (out.Pointer? <==> !NoRoom(a, n, alignment) || answer.Some?)
      && (forall i: nat, k: nat :: FirstRoom(a, i, n, alignment) && LeastRoom(a.chunks[i], n, alignment, k) ==>
            out == Pointer(a.chunks[i].storage + a.chunks[i].offset + k) && PlacedAt(a, b, i, k, n))
      && (NoRoom(a, n, alignment) ==>
            if answer.Some? then out == Pointer(answer.value) && PlacedInNew(a, b, answer.value, n, alignment)
            else out == OutOfMemory && b == a)
  }

  lemma FirstFitIsFirstRoom(w: World, n: nat, alignment: nat)
    requires Ok(w) && alignment != 0
    ensures var i := FirstFit(w.arena.chunks, w.arena.current, n, alignment);
            && (i < |w.arena.chunks| <==> !NoRoom(w.arena, n, alignment))
            && forall j: nat :: FirstRoom(w.arena, j, n, alignment) ==> i == j
  {
    var a := w.arena;
    forall j | 0 <= j < |a.chunks|
      ensures TryAllocate(a.chunks[j], n, alignment).Some? <==> HasRoom(a.chunks[j], n, alignment)
    {
      assert ChunkOk(a.chunks[j]);
      TryAllocateExact(a.chunks[j], n, alignment);
    }
    assert a.current < |a.chunks|;
    hide Ok, TryAllocate, HasRoom;
  }

  /** Every request: refused, placed in the first chunk with room, or placed in a new chunk if there is one. */
  lemma AllocateExact(w: World, size: nat, alignment: nat, answer: Option<Addr>)
    requires Ok(w) && Answered(w.arena, size, alignment, answer)
    ensures var (b, out) := Allocate(w.arena, size, alignment, answer);
            AllocatesExactly(w.arena, size, alignment, answer, b, out)
  {
    var a, n := w.arena, Normalized(size);
    if IsPowerOfTwo(alignment) {
      FirstFitIsFirstRoom(w, n, alignment);
      var i := FirstFit(a.chunks, a.current, n, alignment);
      if i < |a.chunks| {
        hide IsPowerOfTwo, LeastRoom, HasRoom, NoRoom, FirstFit, PlacedInNew, PlacedAt, TryAllocate, Place;
        forall k: nat | LeastRoom(a.chunks[i], n, alignment, k)
          ensures TryAllocate(a.chunks[i], n, alignment).value.pointer == a.chunks[i].storage + a.chunks[i].offset + k
          ensures PlacedAt(a, Place(a, i, TryAllocate(a.chunks[i], n, alignment).value), i, k, n)
        {
          PlaceExact(a, i, k, n, alignment);
        }
        hide Ok;
      } else {
        NewChunkExact(w, size, alignment, answer);
        hide Ok, IsPowerOfTwo, TryAllocate, LeastRoom, FirstFit, PlacedInNew, PlacedAt;
      }
    }
  }

  lemma PlaceExact(a: Arena, i: nat, k: nat, n: nat, alignment: nat)
    requires i < |a.chunks| && ChunkOk(a.chunks[i]) && LeastRoom(a.chunks[i], n, alignment, k) && alignment != 0
    ensures var al := TryAllocate(a.chunks[i], n, alignment);
            && al.Some? && al.value.pointer == a.chunks[i].storage + a.chunks[i].offset + k
            && PlacedAt(a, Place(a, i, al.value), i, k, n)
  {
    TryAllocateExact(a.chunks[i], n, alignment);
    hide TryAllocate;
  }

  lemma NewChunkExact(w: World, size: nat, alignment: nat, answer: Option<Addr>)
    requires Ok(w) && Answered(w.arena, size, alignment, answer) && AsksProvider(w.arena, size, alignment)
    ensures var (b, out) := Allocate(w.arena, size, alignment, answer);
            if answer.Some?
            then out == Pointer(answer.value) && PlacedInNew(w.arena, b, answer.value, Normalized(size), alignment)
            else out == OutOfMemory && b == w.arena
  {
    var a, n := w.arena, Normalized(size);
    NextChunkClosedForm(w);
    if answer.Some? {
      AddChunkOk(w, answer.value, n, alignment);
      var g := AddChunk(a, answer.value, n, alignment);
      assert ChunkOk(g.chunks[|a.chunks|]);
      FreshChunkFits(g.chunks[|a.chunks|], n, alignment);
      hide Ok, IsPowerOfTwo, TryAllocate, ClosedForm, NextSize;
      assert g.chunks[|a.chunks| := Advanced(g.chunks[|a.chunks|], Allocation(answer.value, 0, n))] ==
        a.chunks + [Chunk(answer.value, ChunkSizeFor(a, n), ChunkAlignmentFor(a, alignment), n)];
    }
  }

  // ---- a failed creation ----

  /** What a rollback of the latest allocation leaves of `a`: everything as before, but for a chunk that was added. */
  ghost predicate Restored(a: Arena, b: Arena, size: nat, alignment: nat, answer: Option<Addr>) {
    && b.opts == a.opts && b.used == a.used && b.destructors == a.destructors && b.last.NoLast?
    && if AsksProvider(a, size, alignment) then
         && answer.Some? && b.growths == a.growths + 1
         && b.chunks == a.chunks + [Chunk(answer.value, ChunkSizeFor(a, Normalized(size)),
             ChunkAlignmentFor(a, alignment), 0)]
       else b.chunks == a.chunks && b.growths == a.growths && b.nextSize == a.nextSize
  }

  lemma PlaceUndone(a: Arena, i: nat, al: Allocation)
    requires i < |a.chunks| && al.previous == a.chunks[i].offset
    ensures Rollback(Place(a, i, al), al.pointer) == a.(current := i, last := NoLast)
  {
    assert Place(a, i, al).chunks[i := a.chunks[i]] == a.chunks;
  }

  /**
   Rolling back what was just allocated lowers the cursor to where it was and returns the bytes, padding
   included; every other chunk stays as it is. The same request then gets the same address, and the
   provider is not asked.
   */
  lemma AllocateThenRollback(w: World, size: nat, alignment: nat, answer: Option<Addr>, again: Option<Addr>)
    requires Ok(w) && Answered(w.arena, size, alignment, answer)
    requires Allocate(w.arena, size, alignment, answer).1.Pointer?
    ensures var (a, out) := Allocate(w.arena, size, alignment, answer);
            var b := Rollback(a, out.p);
            && Restored(w.arena, b, size, alignment, answer) && b.opts == w.arena.opts
            && !AsksProvider(b, size, alignment) && Allocate(b, size, alignment, again).1 == out
  {
    var a, n := w.arena, Normalized(size);
    var i := FirstFit(a.chunks, a.current, n, alignment);
    if i < |a.chunks| {
      assert ChunkOk(a.chunks[i]);
      TryAllocateSound(a.chunks[i], n, alignment);
      PlaceUndone(a, i, TryAllocate(a.chunks[i], n, alignment).value);
      hide Ok, IsPowerOfTwo, TryAllocate, Rollback;
    } else {
      AddChunkOk(w, answer.value, n, alignment);
      var g := AddChunk(a, answer.value, n, alignment);
      assert ChunkOk(g.chunks[|a.chunks|]);
      FreshChunkFits(g.chunks[|a.chunks|], n, alignment);
      PlaceUndone(g, |a.chunks|, Allocation(answer.value, 0, n));
      hide Ok, IsPowerOfTwo, TryAllocate, Rollback, NextSize;
    }
  }

  /** Operations only add to the trace. */
  lemma {:induction false} TraceGrows(w: World, op: Op)
    requires OptionsOk(w.arena.opts)
    ensures w.trace <= Exec(w, op).trace
    ensures var (w1, out) := AllocateIn(w, op.size, op.alignment, op.answer);
            out.Pointer? ==> |w.trace| < |Exec(w, op).trace|
    decreases op
  {
    hide Allocate;
    var (w1, out) := AllocateIn(w, op.size, op.alignment, op.answer);
    if op.Create? && out.Pointer? {
      TraceAllGrows(w1, op.body);
    }
  }

  lemma {:induction false} TraceAllGrows(w: World, ops: seq<Op>)
    requires OptionsOk(w.arena.opts)
    ensures w.trace <= ExecAll(w, ops).trace
    decreases ops
  {
    if |ops| > 0 {
      TraceGrows(w, ops[0]);
      TraceAllGrows(Exec(w, ops[0]), ops[1..]);
    }
  }

  /** Operations without a successful allocation change nothing; others take over the remembered allocation. */
  ghost predicate QuietOrMoved(w: World, n: World) {
    if n.trace == w.trace then n.arena == w.arena && n.live == w.live
    else n.arena.last.NoLast? || |n.live| > |w.live|
  }

  lemma ExecQuiet(w: World, op: Op)
    requires Ok(w) && Conforming(w, op)
    ensures QuietOrMoved(w, Exec(w, op))
  {
    hide ChunksOk, LiveOk, LastOk, SizeAfter, RegisteredOk, Answered, Allocate;
    var (w1, out) := AllocateIn(w, op.size, op.alignment, op.answer);
    AllocateOk(w, op.size, op.alignment, op.answer);
    TraceGrows(w, op);
    if op.Create? && out.Pointer? {
      ExecAllOk(w1, op.body);
    }
  }

  lemma {:induction false} ExecAllQuiet(w: World, ops: seq<Op>)
    requires Ok(w) && ConformingAll(w, ops)
    ensures QuietOrMoved(w, ExecAll(w, ops))
    decreases ops
  {
    if |ops| > 0 {
      hide ChunksOk, LiveOk, LastOk, SizeAfter, RegisteredOk, Conforming, Exec;
      var n := Exec(w, ops[0]);
      ExecOk(w, ops[0]);
      ExecQuiet(w, ops[0]);
      ExecAllOk(n, ops[1..]);
      ExecAllQuiet(n, ops[1..]);
      TraceGrows(w, ops[0]);
      TraceAllGrows(n, ops[1..]);
    }
  }

  /**
   A creation whose constructor or registration throws, with any nested allocations and creations. If
   nothing was allocated after it, its bytes are back: cursors, used bytes, live allocations and registered
   objects are as before it, and the same request again gets the same address without asking the
   provider. If something was, nothing is taken back.
   */
  lemma FailedCreate(w: World, op: Op, again: Option<Addr>)
    requires Ok(w) && Conforming(w, op) && op.Create? && (op.ending.Throws? || op.ending.RegistrationThrows?)
    requires AllocateIn(w, op.size, op.alignment, op.answer).1.Pointer?
    ensures var (w1, out) := AllocateIn(w, op.size, op.alignment, op.answer);
            var w2, n := ExecAll(w1, op.body), Exec(w, op);
            if w2.trace == w1.trace then
              && Restored(w.arena, n.arena, op.size, op.alignment, op.answer) && n.live == w.live
              && !AsksProvider(n.arena, op.size, op.alignment)
              && Allocate(n.arena, op.size, op.alignment, again).1 == out
            else n.arena == w2.arena && n.live == w2.live
  {
    hide ChunksOk, SizeAfter, RegisteredOk, Answered, AsksProvider, Allocate, Rollback;
    var (w1, out) := AllocateIn(w, op.size, op.alignment, op.answer);
    var w2 := ExecAll(w1, op.body);
    AllocateOk(w, op.size, op.alignment, op.answer);
    AllocateThenRollback(w, op.size, op.alignment, op.answer, again);
    ExecAllOk(w1, op.body);
    ExecAllQuiet(w1, op.body);
    if w2.trace != w1.trace {
      NotLatest(w1, w2, out.p, |w.live|);
      OnlyLatest(w2.arena, out.p);
    } else {
      JustPlaced(w, op.size, op.alignment, op.answer);
      assert w1.live[..|w1.live| - 1] == w.live;
    }
  }

  lemma OnlyLatest(a: Arena, p: Addr)
    requires !Rewinds(a, p)
    ensures Rollback(a, p) == a
  {
  }

  lemma JustPlaced(w: World, size: nat, alignment: nat, answer: Option<Addr>)
    requires OptionsOk(w.arena.opts) && AllocateIn(w, size, alignment, answer).1.Pointer?
    ensures var (w1, out) := AllocateIn(w, size, alignment, answer); Rewinds(w1.arena, out.p)
  {
  }

  /** An allocation followed by one that is still live, or by one rolled back, is not the latest. */
  lemma NotLatest(w1: World, w2: World, p: Addr, at: nat)
    requires Ok(w2) && Extends(w1, w2) && QuietOrMoved(w1, w2) && w2.trace != w1.trace
    requires |w1.live| == at + 1 && w1.live[at].region.start == p
    ensures !Rewinds(w2.arena, p)
  {
    hide ChunksOk, SizeAfter, RegisteredOk, LiveOk;
    assert w2.live[at] == w1.live[at];
    if Rewinds(w2.arena, p) {
      DistinctStarts(w2.arena.chunks, w2.live, at, |w2.live| - 1);
    }
  }

  /** A creation that completes keeps its storage, whatever its constructor allocated and created. */
  lemma CompletedCreate(w: World, op: Op)
    requires Ok(w) && Conforming(w, op) && op.Create? && (op.ending.Completes? || op.ending.Registers?)
    requires AllocateIn(w, op.size, op.alignment, op.answer).1.Pointer?
    ensures var (w1, out) := AllocateIn(w, op.size, op.alignment, op.answer);
            var w2, n := ExecAll(w1, op.body), Exec(w, op);
            && n.live == w2.live && n.arena == w2.arena.(destructors := n.arena.destructors)
            && |w.live| < |n.live|
            && n.live[|w.live|] == Grant(Region(out.p, Normalized(op.size)), op.alignment)
  {
    hide ChunksOk, LiveOk, LastOk, SizeAfter, RegisteredOk, Answered, Allocate;
    var (w1, out) := AllocateIn(w, op.size, op.alignment, op.answer);
    AllocateOk(w, op.size, op.alignment, op.answer);
    ExecAllOk(w1, op.body);
    assert w1.live[|w.live|] == ExecAll(w1, op.body).live[|w.live|];
  }

  // ---- registered objects ----

  /** The objects an operation registers, in the order their creations complete. */
  function Registrations(w: World, op: Op): seq<Addr>
    requires OptionsOk(w.arena.opts)
    decreases op
  {
    var (w1, out) := AllocateIn(w, op.size, op.alignment, op.answer);
    if op.Alloc? || !out.Pointer? then []
    else RegistrationsAll(w1, op.body) + if op.ending.Registers? then [out.p] else []
  }

  function RegistrationsAll(w: World, ops: seq<Op>): seq<Addr>
    requires OptionsOk(w.arena.opts)
    decreases ops
  {
    if |ops| == 0 then [] else Registrations(w, ops[0]) + RegistrationsAll(Exec(w, ops[0]), ops[1..])
  }

  lemma AllocateKeepsRegistered(w: World, size: nat, alignment: nat, answer: Option<Addr>)
    requires OptionsOk(w.arena.opts)
    ensures AllocateIn(w, size, alignment, answer).0.arena.destructors == w.arena.destructors
  {
  }

  /** Every object whose creation asks for it and completes is registered, once, after those its constructor created. */
  lemma {:induction false} RegistersExactly(w: World, op: Op)
    requires OptionsOk(w.arena.opts)
    ensures Exec(w, op).arena.destructors == w.arena.destructors + Registrations(w, op)
    decreases op
  {
    hide Allocate;
    AllocateKeepsRegistered(w, op.size, op.alignment, op.answer);
    var (w1, out) := AllocateIn(w, op.size, op.alignment, op.answer);
    if op.Create? && out.Pointer? {
      RegistersAllExactly(w1, op.body);
    }
  }

  lemma {:induction false} RegistersAllExactly(w: World, ops: seq<Op>)
    requires OptionsOk(w.arena.opts)
    ensures ExecAll(w, ops).arena.destructors == w.arena.destructors + RegistrationsAll(w, ops)
    decreases ops
  {
    if |ops| > 0 {
      hide Exec, Registrations;
      RegistersExactly(w, ops[0]);
      RegistersAllExactly(Exec(w, ops[0]), ops[1..]);
    }
  }

  // ---- reset ----

  lemma {:induction false} FirstChunkStays(w: World, events: seq<Event>)
    requires OptionsOk(w.arena.opts) && |w.arena.chunks| > 0
    ensures |Live(w, events).arena.chunks| > 0
    ensures Live(w, events).arena.chunks[0].(offset := 0) == w.arena.chunks[0].(offset := 0)
    decreases |events|
  {
    if |events| > 0 {
      if events[0].ResetAll? {
        FirstChunkStays(ResetIn(w), events[1..]);
      } else {
        var op := events[0].op;
        ExecGrows(w, op);
        assert Emptied(w.arena.chunks)[0] == Emptied(Exec(w, op).arena.chunks)[0];
        hide Exec;
        FirstChunkStays(Exec(w, op), events[1..]);
      }
    }
  }

  /**
   Whatever happened in the life of an arena, a reset that retains only the initial chunk makes it the arena it
   was when it was constructed; one that retains all chunks keeps each in its place, with its cursor at the start.
   */
  lemma ResetIsNew(requested: Options, storage: Addr, events: seq<Event>)
    requires Constructible(requested, storage)
    ensures var w := Live(NewWorld(requested, storage), events);
            && |w.arena.chunks| > 0
            && var b := Reset(w.arena);
            if requested.retainAll then
              && |b.chunks| == |w.arena.chunks| && b.nextSize == w.arena.nextSize
              && (forall i :: 0 <= i < |b.chunks| ==> b.chunks[i] == w.arena.chunks[i].(offset := 0))
              && b.used == 0 && b.current == 0 && b.last.NoLast? && b.destructors == []
            else b == New(Validate(requested).value, storage)
  {
    NewOk(requested, storage);
    FirstChunkStays(NewWorld(requested, storage), events);
    var w := Live(NewWorld(requested, storage), events);
    assert Emptied(w.arena.chunks[..1]) == New(Validate(requested).value, storage).chunks;
  }

  /** The options accepted are exactly those with a usable alignment and growth policy. */
  lemma ValidateExact(o: Options)
    requires o.initialSize <= SIZE_MAX && o.growth.maximum <= SIZE_MAX
    requires o.growth.Geometric? ==> o.growth.factor <= SIZE_MAX
    ensures Validate(o).Some? <==> IsPowerOfTwo(o.initialAlignment) && ValidPolicy(o.growth, o.initialSize)
    ensures Validate(o).Some? ==>
              && OptionsOk(Validate(o).value) && MAX_ALIGN <= Validate(o).value.initialAlignment
              && Validate(o).value == o.(initialAlignment := Validate(o).value.initialAlignment)
              && (Validate(o).value.initialAlignment == o.initialAlignment || o.initialAlignment < MAX_ALIGN)
  {
    assert IsPowerOfTwo(MAX_ALIGN) by {
      assert Pow2(4) == MAX_ALIGN;
      PowerOfTwoTest(MAX_ALIGN);
    }
  }
}
