/**
 What the arena guarantees over whole runs: live allocations are aligned, disjoint and
 below their chunk's cursor, a rollback releases nothing but the failed allocation, and the
 gauges agree with the chunks.
 */
module ArenaProofs {
  import opened Bits
  import opened Sums
  import opened Provider
  import opened Growth
  import opened ArenaModel

  // ---- the invariant ----

  ghost predicate OptionsOk(o: Options) {
    IsPowerOfTwo(o.initialAlignment) && ValidPolicy(o.growth, o.initialSize)
  }

  ghost predicate ChunkOk(c: Chunk) {
    && IsPowerOfTwo(c.alignment) && c.storage % c.alignment == 0
    && c.storage != 0 && c.storage + c.capacity <= SIZE_LIMIT
    && c.offset <= c.capacity
  }

  function Whole(c: Chunk): Region {
    Region(c.storage, c.capacity)
  }

  function Used(c: Chunk): Region {
    Region(c.storage, c.offset)
  }

  ghost predicate ChunksOk(chunks: seq<Chunk>) {
    && (forall i :: 0 <= i < |chunks| ==> ChunkOk(chunks[i]))
    && (forall i, j :: 0 <= i < j < |chunks| ==> Apart(Whole(chunks[i]), Whole(chunks[j])))
  }

  ghost predicate GrantOk(chunks: seq<Chunk>, g: Grant) {
    && g.region.size >= 1
    && g.alignment != 0 && g.region.start % g.alignment == 0
    && exists i :: 0 <= i < |chunks| && Inside(g.region, Used(chunks[i]))
  }

  ghost predicate LiveOk(chunks: seq<Chunk>, live: seq<Grant>) {
    && (forall i :: 0 <= i < |live| ==> GrantOk(chunks, live[i]))
    && (forall i, j :: 0 <= i < j < |live| ==> Apart(live[i].region, live[j].region))
  }

  /** The bytes the latest allocation consumed, padding included. */
  function LastBytes(a: Arena): Region
    requires a.last.Last? && a.last.chunk < |a.chunks|
  {
    Region(a.chunks[a.last.chunk].storage + a.last.previous, a.last.consumed)
  }

  /** The remembered allocation is the newest live one and ends at its chunk's cursor. */
  ghost predicate LastOk(a: Arena, live: seq<Grant>) {
    a.last.Last? ==>
      && a.last.chunk < |a.chunks|
      && a.chunks[a.last.chunk].offset == a.last.previous + a.last.consumed
      && |live| > 0
      && live[|live| - 1].region.start == a.last.pointer
      && Inside(live[|live| - 1].region, LastBytes(a))
      && forall i :: 0 <= i < |live| - 1 ==> Apart(live[i].region, LastBytes(a))
  }

  function Offsets(chunks: seq<Chunk>): seq<int> {
    seq(|chunks|, i requires 0 <= i < |chunks| => chunks[i].offset)
  }

  ghost predicate StartsLive(live: seq<Grant>, p: Addr) {
    exists i :: 0 <= i < |live| && live[i].region.start == p
  }

  ghost predicate RegisteredOk(destructors: seq<Addr>, live: seq<Grant>) {
    forall d :: d in destructors ==> StartsLive(live, d)
  }

  ghost predicate Ok(w: World) {
    var a := w.arena;
    && OptionsOk(a.opts)
    && a.current < |a.chunks|
    && ChunksOk(a.chunks)
    && LiveOk(a.chunks, w.live)
    && LastOk(a, w.live)
    && a.used == Sum(Offsets(a.chunks))
    && a.nextSize == SizeAfter(a.opts.growth, a.opts.initialSize, a.growths + 1)
    && RegisteredOk(a.destructors, w.live)
  }

  // ---- one allocation ----

  lemma PaddingAligns(x: nat, a: nat)
    requires a != 0
    ensures (x + Padding(x, a)) % a == 0 && Padding(x, a) < a
  {
    var q, r := x / a, x % a;
    assert x == a * q + r;
    if r != 0 {
      assert x + (a - r) == (q + 1) * a by { assert (q + 1) * a == q * a + a; }
      MultipleModZero(q + 1, a);
    }
  }

  /** No smaller step reaches a multiple. */
  lemma PaddingIsLeast(x: nat, a: nat, k: nat)
    requires a != 0 && k < Padding(x, a)
    ensures (x + k) % a != 0
  {
    var q, r := x / a, x % a;
    assert x + k == q * a + (r + k) by { assert x == a * q + r; }
    DivModUnique(x + k, a, q, r + k);
  }

  /** A chunk serves a request with an aligned block of its free tail, and only if it fits. */
  lemma TryAllocateSound(c: Chunk, size: nat, alignment: nat)
    requires ChunkOk(c) && alignment != 0 && size >= 1
    ensures var r := TryAllocate(c, size, alignment);
            r.Some? ==>
              && r.value.pointer % alignment == 0
              && r.value.previous == c.offset && r.value.consumed >= size
              && Inside(Region(r.value.pointer, size), Region(c.storage + c.offset, r.value.consumed))
              && r.value.pointer + size == c.storage + r.value.previous + r.value.consumed
              && ChunkOk(Advanced(c, r.value))
  {
    PaddingAligns(c.storage + c.offset, alignment);
  }

  /** A fresh chunk always serves the request it was made for. */
  lemma FreshChunkFits(c: Chunk, size: nat, alignment: nat)
    requires ChunkOk(c) && c.offset == 0 && size <= c.capacity
    requires IsPowerOfTwo(alignment) && alignment <= c.alignment
    ensures TryAllocate(c, size, alignment) == Some(Allocation(c.storage, 0, size))
  {
    PowersDivide(alignment, c.alignment);
    ModTransitive(c.storage, alignment, c.alignment);
  }

  /** A grant stays below the cursors when cursors only move up and chunks are only added. */
  lemma GrantsCarryOver(before: seq<Chunk>, after: seq<Chunk>, live: seq<Grant>)
    requires LiveOk(before, live) && |before| <= |after|
    requires forall i :: 0 <= i < |before| ==>
               after[i].storage == before[i].storage && before[i].offset <= after[i].offset
    ensures LiveOk(after, live)
  {
    forall k | 0 <= k < |live|
      ensures GrantOk(after, live[k])
    {
      assert GrantOk(before, live[k]);
      var i :| 0 <= i < |before| && Inside(live[k].region, Used(before[i]));
      assert Inside(live[k].region, Used(after[i]));
    }
  }

  /** The free tail of a chunk touches no live allocation. */
  lemma TailIsFree(chunks: seq<Chunk>, live: seq<Grant>, i: nat, tail: Region, k: nat)
    requires ChunksOk(chunks) && LiveOk(chunks, live) && i < |chunks| && k < |live|
    requires tail.start == chunks[i].storage + chunks[i].offset && Inside(tail, Whole(chunks[i]))
    ensures Apart(live[k].region, tail)
  {
    assert GrantOk(chunks, live[k]);
    var j :| 0 <= j < |chunks| && Inside(live[k].region, Used(chunks[j]));
    assert ChunkOk(chunks[j]);
    if j < i {
      assert Apart(Whole(chunks[j]), Whole(chunks[i]));
    } else if i < j {
      assert Apart(Whole(chunks[i]), Whole(chunks[j]));
    }
  }

  /** Booking an allocation in chunk `i` keeps everything in order. */
  lemma PlaceOk(w: World, i: nat, size: nat, alignment: nat, n: World)
    requires Ok(w) && i < |w.arena.chunks| && alignment != 0 && size >= 1
    requires TryAllocate(w.arena.chunks[i], size, alignment).Some?
    requires var al := TryAllocate(w.arena.chunks[i], size, alignment).value;
             n.arena == Place(w.arena, i, al) && n.live == w.live + [Grant(Region(al.pointer, size), alignment)]
    ensures Ok(n)
  {
    var a, b := w.arena, n.arena;
    var al := TryAllocate(a.chunks[i], size, alignment).value;
    hide SizeAfter;
    var tail := Region(a.chunks[i].storage + al.previous, al.consumed);
    var newest := Grant(Region(al.pointer, size), alignment);
    assert ChunkOk(a.chunks[i]);
    TryAllocateSound(a.chunks[i], size, alignment);
    hide TryAllocate;
    assert ChunksOk(b.chunks) by {
      hide LiveOk, LastOk, RegisteredOk;
    }
    forall k | 0 <= k < |w.live|
      ensures Apart(w.live[k].region, tail)
    {
      hide LastOk, RegisteredOk;
      TailIsFree(a.chunks, w.live, i, tail, k);
    }
    hide ChunksOk, RegisteredOk;
    assert LastOk(b, n.live) by {
      hide LiveOk;
    }
    assert LiveOk(b.chunks, n.live) by {
      hide LastOk;
      GrantsCarryOver(a.chunks, b.chunks, w.live);
      assert Inside(newest.region, Used(b.chunks[i]));
      assert GrantOk(b.chunks, newest);
    }
    hide LiveOk, LastOk;
    PlaceKeepsSum(a, i, al);
    RegisteredCarryOver(a.destructors, w.live, n.live);
  }

  lemma PlaceKeepsSum(a: Arena, i: nat, al: Allocation)
    requires i < |a.chunks| && al.previous == a.chunks[i].offset && a.used == Sum(Offsets(a.chunks))
    ensures var b := Place(a, i, al); b.used == Sum(Offsets(b.chunks))
  {
    assert Offsets(Place(a, i, al).chunks) == Offsets(a.chunks)[i := al.previous + al.consumed];
    SumUpdate(Offsets(a.chunks), i, al.previous + al.consumed);
  }

  lemma RegisteredCarryOver(destructors: seq<Addr>, before: seq<Grant>, after: seq<Grant>)
    requires RegisteredOk(destructors, before) && before <= after
    ensures RegisteredOk(destructors, after)
  {
    forall d | d in destructors
      ensures StartsLive(after, d)
    {
      assert StartsLive(before, d);
      var i :| 0 <= i < |before| && before[i].region.start == d;
      assert after[i] == before[i];
    }
  }

  function Regions(chunks: seq<Chunk>): seq<Region> {
    seq(|chunks|, i requires 0 <= i < |chunks| => Whole(chunks[i]))
  }

  /** The provider, if asked, answers by its contract. */
  ghost predicate Answered(a: Arena, size: nat, alignment: nat, answer: Option<Addr>) {
    AsksProvider(a, size, alignment) ==>
      Conforms(Regions(a.chunks), ChunkSizeFor(a, Normalized(size)), ChunkAlignmentFor(a, alignment), answer)
  }

  lemma AddChunkOk(w: World, storage: Addr, size: nat, alignment: nat)
    requires Ok(w) && size >= 1 && IsPowerOfTwo(alignment)
    requires Conforms(Regions(w.arena.chunks), ChunkSizeFor(w.arena, size),
                      ChunkAlignmentFor(w.arena, alignment), Some(storage))
    ensures Ok(w.(arena := AddChunk(w.arena, storage, size, alignment)))
  {
    var a := w.arena;
    var b := AddChunk(a, storage, size, alignment);
    var c := b.chunks[|a.chunks|];
    assert ChunksOk(b.chunks) by {
      hide LiveOk, LastOk, RegisteredOk, SizeAfter;
      assert ChunkOk(c);
      forall i | 0 <= i < |a.chunks|
        ensures Apart(Whole(b.chunks[i]), Whole(c))
      {
        assert Regions(a.chunks)[i] == Whole(a.chunks[i]);
      }
    }
    hide ChunksOk;
    GrantsCarryOver(a.chunks, b.chunks, w.live);
    assert Offsets(b.chunks)[..|a.chunks|] == Offsets(a.chunks);
  }

  /** Every outcome of `allocate` keeps the invariant, and the "cannot happen" error does not happen. */
  lemma AllocateOk(w: World, size: nat, alignment: nat, answer: Option<Addr>)
    requires Ok(w) && Answered(w.arena, size, alignment, answer)
    ensures var r := AllocateIn(w, size, alignment, answer);
            && Ok(r.0)
            && !r.1.LogicError?
            && (if r.1.Pointer? then r.0.live == w.live + [Grant(Region(r.1.p, Normalized(size)), alignment)]
                else r.0.arena == w.arena && r.0.live == w.live)
  {
    var a := w.arena;
    var (n, out) := AllocateIn(w, size, alignment, answer);
    if IsPowerOfTwo(alignment) {
      var m := Normalized(size);
      var i := FirstFit(a.chunks, a.current, m, alignment);
      if i < |a.chunks| {
        hide ChunksOk, LiveOk, LastOk, RegisteredOk, SizeAfter;
        PlaceOk(w, i, m, alignment, n);
      } else if answer.Some? {
        AddChunkOk(w, answer.value, m, alignment);
        var u := w.(arena := AddChunk(a, answer.value, m, alignment));
        var c := u.arena.chunks[|a.chunks|];
        assert ChunkOk(c);
        FreshChunkFits(c, m, alignment);
        hide Ok;
        PlaceOk(u, |a.chunks|, m, alignment, n);
      }
    }
  }

  // ---- rollback ----

  lemma DistinctStarts(chunks: seq<Chunk>, live: seq<Grant>, i: nat, j: nat)
    requires LiveOk(chunks, live) && i < |live| && j < |live| && i != j
    ensures live[i].region.start != live[j].region.start
  {
    assert GrantOk(chunks, live[i]) && GrantOk(chunks, live[j]);
    assert Apart(live[if i < j then i else j].region, live[if i < j then j else i].region);
  }

  /** Rewinding leaves every other live allocation below the cursors. */
  lemma RewindKeepsGrants(a: Arena, live: seq<Grant>, p: Addr)
    requires ChunksOk(a.chunks) && LiveOk(a.chunks, live) && LastOk(a, live) && Rewinds(a, p)
    ensures LiveOk(Rollback(a, p).chunks, live[..|live| - 1])
  {
    var b := Rollback(a, p);
    var rest := live[..|live| - 1];
    forall k | 0 <= k < |rest|
      ensures GrantOk(b.chunks, rest[k])
    {
      assert rest[k] == live[k] && GrantOk(a.chunks, live[k]);
      var i :| 0 <= i < |a.chunks| && Inside(live[k].region, Used(a.chunks[i]));
      assert Apart(live[k].region, LastBytes(a));
      assert Inside(live[k].region, Used(b.chunks[i]));
    }
    assert forall i, j :: 0 <= i < j < |rest| ==> Apart(live[i].region, live[j].region);
  }

  /** A rollback releases exactly the failed allocation: nothing else that is live is touched. */
  lemma RollbackOk(w: World, p: Addr)
    requires Ok(w) && p !in w.arena.destructors
    ensures var n := RollbackIn(w, p);
            && Ok(n)
            && (if Rewinds(w.arena, p) then |w.live| > 0 && n.live == w.live[..|w.live| - 1] else n.live == w.live)
            && n.arena.destructors == w.arena.destructors
  {
    if Rewinds(w.arena, p) {
      var a, b := w.arena, Rollback(w.arena, p);
      RewindKeepsGrants(a, w.live, p);
      RewindKeepsSum(a, w.live, p);
      RegisteredCut(a.destructors, w.live);
      assert ChunksOk(b.chunks) by {
        hide LiveOk, LastOk, RegisteredOk, SizeAfter;
      }
      hide ChunksOk, LiveOk, RegisteredOk, SizeAfter;
    }
  }

  lemma RewindKeepsSum(a: Arena, live: seq<Grant>, p: Addr)
    requires LastOk(a, live) && Rewinds(a, p) && a.used == Sum(Offsets(a.chunks))
    ensures var b := Rollback(a, p); b.used == Sum(Offsets(b.chunks))
  {
    var b := Rollback(a, p);
    assert Offsets(b.chunks) == Offsets(a.chunks)[a.last.chunk := a.last.previous];
    SumUpdate(Offsets(a.chunks), a.last.chunk, a.last.previous);
  }

  /** If the newest allocation is not a registered object, all registered objects are among the others. */
  lemma RegisteredCut(destructors: seq<Addr>, live: seq<Grant>)
    requires RegisteredOk(destructors, live) && |live| > 0 && live[|live| - 1].region.start !in destructors
    ensures RegisteredOk(destructors, live[..|live| - 1])
  {
    var rest := live[..|live| - 1];
    forall d | d in destructors
      ensures StartsLive(rest, d)
    {
      assert StartsLive(live, d);
      var i :| 0 <= i < |live| && live[i].region.start == d;
      assert rest[i] == live[i];
    }
  }

  // ---- whole operations ----

  /** The provider answers by its contract throughout an operation, nested ones included. */
  ghost predicate Conforming(w: World, op: Op)
    requires OptionsOk(w.arena.opts)
    decreases op
  {
    && Answered(w.arena, op.size, op.alignment, op.answer)
    && var (w1, out) := AllocateIn(w, op.size, op.alignment, op.answer);
    && (op.Create? && out.Pointer? ==> ConformingAll(w1, op.body))
  }

  ghost predicate ConformingAll(w: World, ops: seq<Op>)
    requires OptionsOk(w.arena.opts)
    decreases ops
  {
    |ops| == 0 || (Conforming(w, ops[0]) && ConformingAll(Exec(w, ops[0]), ops[1..]))
  }

  ghost predicate StartsAfter(live: seq<Grant>, from: nat, d: Addr) {
    exists i :: from <= i < |live| && live[i].region.start == d
  }

  /** Operations only add live allocations and registered objects, and register only what they added. */
  ghost predicate Extends(w: World, n: World) {
    && w.live <= n.live
    && w.arena.destructors <= n.arena.destructors
    && forall k :: |w.arena.destructors| <= k < |n.arena.destructors| ==>
         StartsAfter(n.live, |w.live|, n.arena.destructors[k])
  }

  lemma ExtendsTransitive(u: World, v: World, w: World)
    requires Extends(u, v) && Extends(v, w)
    ensures Extends(u, w)
  {
    forall k | |u.arena.destructors| <= k < |w.arena.destructors|
      ensures StartsAfter(w.live, |u.live|, w.arena.destructors[k])
    {
      if k < |v.arena.destructors| {
        assert StartsAfter(v.live, |u.live|, v.arena.destructors[k]);
        var i :| |u.live| <= i < |v.live| && v.live[i].region.start == v.arena.destructors[k];
        assert w.live[i] == v.live[i];
      } else {
        assert StartsAfter(w.live, |v.live|, w.arena.destructors[k]);
      }
    }
  }

  /** An object under construction is not registered by the operations of its constructor. */
  lemma NotRegistered(w: World, w1: World, w2: World)
    requires Ok(w) && Ok(w2) && Extends(w1, w2)
    requires |w1.live| == |w.live| + 1 && w.live <= w1.live && w1.arena.destructors == w.arena.destructors
    ensures w1.live[|w.live|].region.start !in w2.arena.destructors
  {
    hide ChunksOk, LastOk, SizeAfter;
    var p, d := w1.live[|w.live|].region.start, w2.arena.destructors;
    assert w2.live[|w.live|] == w1.live[|w.live|];
    forall k | 0 <= k < |d|
      ensures d[k] != p
    {
      if k < |w.arena.destructors| {
        assert d[k] == w.arena.destructors[k] && StartsLive(w.live, d[k]);
        var i :| 0 <= i < |w.live| && w.live[i].region.start == d[k];
        assert w2.live[i] == w.live[i];
        DistinctStarts(w2.arena.chunks, w2.live, i, |w.live|);
      } else {
        assert StartsAfter(w2.live, |w1.live|, d[k]);
        var i :| |w1.live| <= i < |w2.live| && w2.live[i].region.start == d[k];
        DistinctStarts(w2.arena.chunks, w2.live, i, |w.live|);
      }
    }
  }

  /** Undoing a creation takes back its own allocation or, after nested ones, nothing. */
  lemma UndoOk(w: World, w1: World, w2: World)
    requires Ok(w) && Ok(w2) && Extends(w1, w2)
    requires |w1.live| == |w.live| + 1 && w.live <= w1.live && w1.arena.destructors == w.arena.destructors
    ensures var n := RollbackIn(w2, w1.live[|w.live|].region.start); Ok(n) && Extends(w, n)
  {
    var p := w1.live[|w.live|].region.start;
    NotRegistered(w, w1, w2);
    RollbackOk(w2, p);
    var n := RollbackIn(w2, p);
    assert w2.live[|w.live|] == w1.live[|w.live|];
    assert Rewinds(w2.arena, p) ==> |w2.live| == |w1.live| by {
      hide ChunksOk, SizeAfter;
      assert forall i :: |w1.live| <= i < |w2.live| ==> w2.live[i].region.start != p by {
        forall i | |w1.live| <= i < |w2.live|
          ensures w2.live[i].region.start != p
        {
          DistinctStarts(w2.arena.chunks, w2.live, i, |w.live|);
        }
      }
    }
    hide Ok;
    forall k | |w.arena.destructors| <= k < |n.arena.destructors|
      ensures StartsAfter(n.live, |w.live|, n.arena.destructors[k])
    {
      assert StartsAfter(w2.live, |w1.live|, w2.arena.destructors[k]);
    }
  }

  /**
   Every operation, with any nesting of creations inside constructors, any constructor or
   registration failing, and any provider failures: the invariant is kept, and everything
   that was live or registered before it still is, at the same place.
   */
  lemma {:induction false} ExecOk(w: World, op: Op)
    requires Ok(w) && Conforming(w, op)
    ensures Ok(Exec(w, op)) && Extends(w, Exec(w, op))
    decreases op
  {
    hide ChunksOk, LiveOk, LastOk, SizeAfter, RegisteredOk, Answered;
    var (w1, out) := AllocateIn(w, op.size, op.alignment, op.answer);
    AllocateOk(w, op.size, op.alignment, op.answer);
    if op.Create? && out.Pointer? {
      ExecAllOk(w1, op.body);
      var w2 := ExecAll(w1, op.body);
      if op.ending.Throws? || op.ending.RegistrationThrows? {
        UndoOk(w, w1, w2);
      } else {
        FinishOk(w, w1, w2, op.ending.Registers?);
      }
    }
  }

  lemma FinishOk(w: World, w1: World, w2: World, registers: bool)
    requires Ok(w2) && Extends(w1, w2)
    requires |w1.live| == |w.live| + 1 && w.live <= w1.live && w1.arena.destructors == w.arena.destructors
    ensures var d := w2.arena.destructors + (if registers then [w1.live[|w.live|].region.start] else []);
            var n := w2.(arena := w2.arena.(destructors := d)); Ok(n) && Extends(w, n)
  {
    hide ChunksOk, LiveOk, SizeAfter;
    var p := w1.live[|w.live|].region.start;
    var d := w2.arena.destructors + if registers then [p] else [];
    assert w2.live[|w.live|].region.start == p;
    assert StartsLive(w2.live, p) && StartsAfter(w2.live, |w.live|, p);
    forall k | |w.arena.destructors| <= k < |d|
      ensures StartsAfter(w2.live, |w.live|, d[k])
    {
      if k < |w2.arena.destructors| {
        assert StartsAfter(w2.live, |w1.live|, d[k]);
      }
    }
  }

  lemma {:induction false} ExecAllOk(w: World, ops: seq<Op>)
    requires Ok(w) && ConformingAll(w, ops)
    ensures Ok(ExecAll(w, ops)) && Extends(w, ExecAll(w, ops))
    decreases ops
  {
    if |ops| > 0 {
      hide ChunksOk, LiveOk, LastOk, SizeAfter, RegisteredOk, Extends;
      ExecOk(w, ops[0]);
      ExecAllOk(Exec(w, ops[0]), ops[1..]);
      ExtendsTransitive(w, Exec(w, ops[0]), ExecAll(w, ops));
    }
  }

  // ---- construction, reset, and whole lifetimes ----

  lemma EmptiedOffsets(chunks: seq<Chunk>)
    ensures Sum(Offsets(Emptied(chunks))) == 0
  {
    SumZero(Offsets(Emptied(chunks)));
  }

  /** The options are accepted, and the provider has answered the request for the initial chunk. */
  ghost predicate Constructible(requested: Options, storage: Addr) {
    && Validate(requested).Some? && requested.initialSize <= SIZE_MAX && requested.growth.maximum <= SIZE_MAX
    && (requested.growth.Geometric? ==> requested.growth.factor <= SIZE_MAX)
    && var o := Validate(requested).value;
    && o.initialAlignment != 0 && Conforms([], o.initialSize, o.initialAlignment, Some(storage))
  }

  function NewWorld(requested: Options, storage: Addr): World
    requires Validate(requested).Some?
  {
    World(New(Validate(requested).value, storage), [], [], 1)
  }

  lemma NewOk(requested: Options, storage: Addr)
    requires Constructible(requested, storage)
    ensures Ok(NewWorld(requested, storage))
  {
    var a := New(Validate(requested).value, storage);
    assert IsPowerOfTwo(MAX_ALIGN) by {
      assert Pow2(4) == MAX_ALIGN;
      PowerOfTwoTest(MAX_ALIGN);
    }
    assert Offsets(a.chunks) == [0];
    assert SizeAfter(a.opts.growth, a.opts.initialSize, 0) == a.opts.initialSize;
  }

  lemma ResetOk(w: World)
    requires Ok(w)
    ensures Ok(ResetIn(w)) && ResetIn(w).live == [] && ResetIn(w).arena.destructors == []
    ensures ResetIn(w).arena.used == 0
  {
    var a := w.arena;
    EmptiedOffsets(a.chunks);
    EmptiedOffsets(a.chunks[..1]);
    assert SizeAfter(a.opts.growth, a.opts.initialSize, 0) == a.opts.initialSize;
  }

  datatype Event = Do(op: Op) | ResetAll

  function Live(w: World, events: seq<Event>): (r: World)
    requires w.arena.opts.growth.Geometric? ==> w.arena.opts.growth.factor != 0
    requires |w.arena.chunks| > 0
    ensures r.arena.opts == w.arena.opts
    decreases |events|
  {
    if |events| == 0 then w
    else if events[0].ResetAll? then Live(ResetIn(w), events[1..])
    else Live(Exec(w, events[0].op), events[1..])
  }

  ghost predicate ConformingLife(w: World, events: seq<Event>)
    requires OptionsOk(w.arena.opts) && |w.arena.chunks| > 0
    decreases |events|
  {
    |events| == 0 ||
    (if events[0].ResetAll? then ConformingLife(ResetIn(w), events[1..])
     else Conforming(w, events[0].op) && ConformingLife(Exec(w, events[0].op), events[1..]))
  }

  /**
   Over every lifetime of an arena from its construction: live allocations are aligned, pairwise disjoint and below
   their chunk's cursor, `current_used_bytes` is the sum of the cursors, registered objects
   are live, and the next chunk size is the closed form of the growths so far.
   */
  lemma ArenaLifetime(requested: Options, storage: Addr, events: seq<Event>)
    requires Constructible(requested, storage)
    requires var w := NewWorld(requested, storage); OptionsOk(w.arena.opts) ==> ConformingLife(w, events)
    ensures var w := NewWorld(requested, storage); OptionsOk(w.arena.opts) && Ok(Live(w, events))
  {
    NewOk(requested, storage);
    LifeKeepsOk(NewWorld(requested, storage), events);
  }

  lemma {:induction false} LifeKeepsOk(w: World, events: seq<Event>)
    requires Ok(w) && ConformingLife(w, events)
    ensures Ok(Live(w, events))
    decreases |events|
  {
    if |events| > 0 {
      hide ChunksOk, LiveOk, LastOk, SizeAfter, RegisteredOk;
      if events[0].ResetAll? {
        ResetOk(w);
        LifeKeepsOk(ResetIn(w), events[1..]);
      } else {
        ExecOk(w, events[0].op);
        LifeKeepsOk(Exec(w, events[0].op), events[1..]);
      }
    }
  }

  /** In unbounded arithmetic the next chunk has min(cap, initial * factor^(growths + 1)) bytes. */
  lemma NextChunkClosedForm(w: World)
    requires Ok(w)
    ensures w.arena.nextSize == ClosedForm(w.arena.opts.growth, w.arena.opts.initialSize, w.arena.growths + 1)
  {
    GrowthClosedForm(w.arena.opts.growth, w.arena.opts.initialSize, w.arena.growths + 1);
  }
}
