/**
 Replay: with all chunks retained, a workload run again after a reset gets exactly the
 same addresses and never asks the provider.
 */
module ArenaReplay {
  import opened Bits
  import opened Provider
  import opened ArenaModel
  import opened ArenaProofs

  /** The same operation, with a provider that would refuse every request. */
  function Refused(op: Op): Op
    decreases op
  {
    match op
    case Alloc(size, alignment, _) => Alloc(size, alignment, None)
    case Create(size, alignment, _, body, ending) => Create(size, alignment, None, RefusedAll(body), ending)
  }

  function RefusedAll(ops: seq<Op>): seq<Op>
    decreases ops
  {
    if |ops| == 0 then [] else [Refused(ops[0])] + RefusedAll(ops[1..])
  }

  /** No request of the operation fails for lack of memory. */
  ghost predicate Served(w: World, op: Op)
    requires OptionsOk(w.arena.opts)
    decreases op
  {
    var (w1, out) := AllocateIn(w, op.size, op.alignment, op.answer);
    !out.OutOfMemory? && (op.Create? && out.Pointer? ==> ServedAll(w1, op.body))
  }

  ghost predicate ServedAll(w: World, ops: seq<Op>)
    requires OptionsOk(w.arena.opts)
    decreases ops
  {
    |ops| == 0 || (Served(w, ops[0]) && ServedAll(Exec(w, ops[0]), ops[1..]))
  }

  // ---- chunks are only added ----

  lemma AllocateGrows(w: World, size: nat, alignment: nat, answer: Option<Addr>)
    requires OptionsOk(w.arena.opts)
    ensures Emptied(w.arena.chunks) <= Emptied(AllocateIn(w, size, alignment, answer).0.arena.chunks)
  {
  }

  lemma RollbackSameChunks(w: World, p: Addr)
    ensures Emptied(RollbackIn(w, p).arena.chunks) == Emptied(w.arena.chunks)
  {
  }

  lemma FinishSameChunks(w: World, p: Addr, ending: Ending)
    ensures Emptied(Finish(w, p, ending).arena.chunks) == Emptied(w.arena.chunks)
  {
    RollbackSameChunks(w, p);
  }

  lemma {:induction false} ExecGrows(w: World, op: Op)
    requires OptionsOk(w.arena.opts)
    ensures Emptied(w.arena.chunks) <= Emptied(Exec(w, op).arena.chunks)
    decreases op
  {
    hide Emptied, Allocate;
    var (w1, out) := AllocateIn(w, op.size, op.alignment, op.answer);
    AllocateGrows(w, op.size, op.alignment, op.answer);
    if op.Create? && out.Pointer? {
      ExecAllGrows(w1, op.body);
      FinishSameChunks(ExecAll(w1, op.body), out.p, op.ending);
    }
  }

  lemma {:induction false} ExecAllGrows(w: World, ops: seq<Op>)
    requires OptionsOk(w.arena.opts)
    ensures Emptied(w.arena.chunks) <= Emptied(ExecAll(w, ops).arena.chunks)
    decreases ops
  {
    if |ops| > 0 {
      hide Emptied;
      ExecGrows(w, ops[0]);
      ExecAllGrows(Exec(w, ops[0]), ops[1..]);
    }
  }

  // ---- the simulation ----

  /**
   The chunks of the second run mirror those of the first: they are already all the chunks
   the first run ends up with (`all`), and those it does not have yet are untouched.
   */
  ghost predicate MirrorChunks(first: seq<Chunk>, second: seq<Chunk>, all: seq<Chunk>) {
    && |first| <= |second|
    && (forall i :: 0 <= i < |first| ==> second[i] == first[i])
    && (forall i :: |first| <= i < |second| ==> second[i].offset == 0)
    && Emptied(second) == all
  }

  ghost predicate Mirrors(a: Arena, b: Arena, all: seq<Chunk>) {
    b.opts == a.opts && b.current == a.current && b.last == a.last && MirrorChunks(a.chunks, b.chunks, all)
  }

  /** Both runs returned the same addresses since `a` and `b`. */
  ghost predicate SameTrace(a: World, n: World, b: World, m: World) {
    && a.trace <= n.trace && b.trace <= m.trace
    && n.trace[|a.trace|..] == m.trace[|b.trace|..]
    && m.providerCalls == b.providerCalls
  }

  lemma SameTraceTransitive(a: World, n: World, r: World, b: World, m: World, s: World)
    requires SameTrace(a, n, b, m) && SameTrace(n, r, m, s)
    ensures SameTrace(a, r, b, s)
  {
    assert r.trace[|a.trace|..] == n.trace[|a.trace|..] + r.trace[|n.trace|..];
    assert s.trace[|b.trace|..] == m.trace[|b.trace|..] + s.trace[|m.trace|..];
  }

  lemma {:induction false} FirstFitIs(chunks: seq<Chunk>, from: nat, size: nat, alignment: nat, i: nat)
    requires alignment != 0 && from <= i < |chunks| && TryAllocate(chunks[i], size, alignment).Some?
    requires forall j :: from <= j < i ==> TryAllocate(chunks[j], size, alignment).None?
    ensures FirstFit(chunks, from, size, alignment) == i
    decreases i - from
  {
    if from < i {
      FirstFitIs(chunks, from + 1, size, alignment, i);
    }
  }

  lemma PlaceMirrors(a: Arena, b: Arena, i: nat, al: Allocation, all: seq<Chunk>)
    requires MirrorChunks(a.chunks, b.chunks, all) && b.opts == a.opts && i < |a.chunks|
    ensures Mirrors(Place(a, i, al), Place(b, i, al), all)
  {
    assert Emptied(Place(b, i, al).chunks) == Emptied(b.chunks);
  }

  lemma GrowthMirrors(first: seq<Chunk>, second: seq<Chunk>, c: Chunk, all: seq<Chunk>)
    requires MirrorChunks(first, second, all) && c.offset == 0
    requires Emptied(first + [c]) <= all
    ensures MirrorChunks(first + [c], second, all) && second[|first|] == c
  {
    var g := |first|;
    assert Emptied(first + [c])[g] == c;
    assert all[g] == c && Emptied(second)[g] == second[g].(offset := 0);
  }

  /** One allocation: the second run finds the block where the first run took it. */
  lemma MirrorAllocate(a: World, b: World, size: nat, alignment: nat, answer: Option<Addr>, all: seq<Chunk>)
    requires Ok(a) && Mirrors(a.arena, b.arena, all) && Answered(a.arena, size, alignment, answer)
    requires var r := AllocateIn(a, size, alignment, answer);
             !r.1.OutOfMemory? && Emptied(r.0.arena.chunks) <= all
    ensures var r, q := AllocateIn(a, size, alignment, answer), AllocateIn(b, size, alignment, None);
            q.1 == r.1 && Mirrors(r.0.arena, q.0.arena, all) && SameTrace(a, r.0, b, q.0)
  {
    AllocateOk(a, size, alignment, answer);
    assert OptionsOk(a.arena.opts) && a.arena.current <= |a.arena.chunks|;
    hide Ok, Allocate, Mirrors, Emptied, AsksProvider, OptionsOk, IsPowerOfTwo;
    MirrorArena(a.arena, b.arena, size, alignment, answer, all);
  }

  lemma MirrorArena(a: Arena, b: Arena, size: nat, alignment: nat, answer: Option<Addr>, all: seq<Chunk>)
    requires OptionsOk(a.opts) && OptionsOk(b.opts) && a.current <= |a.chunks| && Mirrors(a, b, all)
    requires var r := Allocate(a, size, alignment, answer);
             !r.1.OutOfMemory? && !r.1.LogicError? && Emptied(r.0.chunks) <= all
    ensures var r, q := Allocate(a, size, alignment, answer), Allocate(b, size, alignment, None);
            q.1 == r.1 && Mirrors(r.0, q.0, all) && !AsksProvider(b, size, alignment)
  {
    if IsPowerOfTwo(alignment) {
      var k := Normalized(size);
      var i := FirstFit(a.chunks, a.current, k, alignment);
      hide TryAllocate, Emptied, IsPowerOfTwo;
      if i < |a.chunks| {
        FirstFitIs(b.chunks, b.current, k, alignment, i);
        PlaceMirrors(a, b, i, TryAllocate(a.chunks[i], k, alignment).value, all);
      } else {
        var grown := AddChunk(a, answer.value, k, alignment);
        PlaceSameChunks(grown, |a.chunks|, TryAllocate(grown.chunks[|a.chunks|], k, alignment).value);
        hide AddChunk;
        MirrorGrowth(a, b, k, alignment, answer.value, all);
      }
    }
  }

  lemma PlaceSameChunks(a: Arena, i: nat, al: Allocation)
    requires i < |a.chunks|
    ensures Emptied(Place(a, i, al).chunks) == Emptied(a.chunks)
  {
  }

  /** Where the first run adds a chunk, the second finds it already there and empty. */
  lemma MirrorGrowth(a: Arena, b: Arena, k: nat, alignment: nat, storage: Addr, all: seq<Chunk>)
    requires OptionsOk(a.opts) && a.current <= |a.chunks|
    requires Mirrors(a, b, all) && alignment != 0
    requires FirstFit(a.chunks, a.current, k, alignment) >= |a.chunks|
    requires var grown := AddChunk(a, storage, k, alignment);
             && TryAllocate(grown.chunks[|a.chunks|], k, alignment).Some?
             && Emptied(grown.chunks) <= all
    ensures var g := |a.chunks|;
            var grown := AddChunk(a, storage, k, alignment);
            var al := TryAllocate(grown.chunks[g], k, alignment).value;
            && g < |b.chunks| && b.chunks[g] == grown.chunks[g]
            && FirstFit(b.chunks, b.current, k, alignment) == g
            && Mirrors(Place(grown, g, al), Place(b, g, al), all)
  {
    hide TryAllocate, Emptied;
    var g := |a.chunks|;
    var grown := AddChunk(a, storage, k, alignment);
    GrowthMirrors(a.chunks, b.chunks, grown.chunks[g], all);
    FirstFitIs(b.chunks, b.current, k, alignment, g);
    PlaceMirrors(grown, b, g, TryAllocate(grown.chunks[g], k, alignment).value, all);
  }

  lemma MirrorFinish(a: World, b: World, p: Addr, ending: Ending, all: seq<Chunk>)
    requires Ok(a) && Mirrors(a.arena, b.arena, all)
    ensures Mirrors(Finish(a, p, ending).arena, Finish(b, p, ending).arena, all)
    ensures SameTrace(a, Finish(a, p, ending), b, Finish(b, p, ending))
  {
    hide LiveOk, ChunksOk;
    RollbackSameChunks(b, p);
  }

  lemma {:induction false} MirrorExec(a: World, b: World, op: Op, all: seq<Chunk>)
    requires Ok(a) && Conforming(a, op) && Served(a, op) && Mirrors(a.arena, b.arena, all)
    requires Emptied(Exec(a, op).arena.chunks) <= all
    ensures Mirrors(Exec(a, op).arena, Exec(b, Refused(op)).arena, all)
    ensures SameTrace(a, Exec(a, op), b, Exec(b, Refused(op)))
    decreases op
  {
    assert OptionsOk(a.arena.opts) && b.arena.opts == a.arena.opts;
    hide Emptied, AllocateIn, Ok, Answered, Finish, Mirrors, SameTrace;
    var (n, out) := AllocateIn(a, op.size, op.alignment, op.answer);
    var (m, got) := AllocateIn(b, op.size, op.alignment, None);
    AllocateOk(a, op.size, op.alignment, op.answer);
    if op.Alloc? || !out.Pointer? {
      MirrorAllocate(a, b, op.size, op.alignment, op.answer, all);
    } else {
      var n2, m2 := ExecAll(n, op.body), ExecAll(m, RefusedAll(op.body));
      ExecAllGrows(n, op.body);
      FinishSameChunks(n2, out.p, op.ending);
      MirrorAllocate(a, b, op.size, op.alignment, op.answer, all);
      MirrorExecAll(n, m, op.body, all);
      SameTraceTransitive(a, n, n2, b, m, m2);
      ExecAllOk(n, op.body);
      MirrorFinish(n2, m2, out.p, op.ending, all);
      SameTraceTransitive(a, n2, Finish(n2, out.p, op.ending), b, m2, Finish(m2, out.p, op.ending));
    }
  }

  lemma {:induction false} MirrorExecAll(a: World, b: World, ops: seq<Op>, all: seq<Chunk>)
    requires Ok(a) && ConformingAll(a, ops) && ServedAll(a, ops) && Mirrors(a.arena, b.arena, all)
    requires Emptied(ExecAll(a, ops).arena.chunks) <= all
    ensures Mirrors(ExecAll(a, ops).arena, ExecAll(b, RefusedAll(ops)).arena, all)
    ensures SameTrace(a, ExecAll(a, ops), b, ExecAll(b, RefusedAll(ops)))
    decreases ops
  {
    if |ops| > 0 {
      hide Emptied, Ok;
      var n, m := Exec(a, ops[0]), Exec(b, Refused(ops[0]));
      assert RefusedAll(ops)[0] == Refused(ops[0]) && RefusedAll(ops)[1..] == RefusedAll(ops[1..]);
      ExecOk(a, ops[0]);
      ExecAllGrows(n, ops[1..]);
      MirrorExec(a, b, ops[0], all);
      MirrorExecAll(n, m, ops[1..], all);
      SameTraceTransitive(a, n, ExecAll(a, ops), b, m, ExecAll(b, RefusedAll(ops)));
    }
  }

  /** Nothing has been allocated since the last reset. */
  ghost predicate JustReset(a: Arena) {
    a.current == 0 && a.last == NoLast && Emptied(a.chunks) == a.chunks
  }

  /**
   Replay. With retain_all_chunks, take any just-reset arena and any sequence of operations
   (allocations, creations with nested ones, failing constructors) none of whose requests
   runs out of memory. Resetting and running them again, even with a provider that refuses
   everything, returns the same addresses in the same order and never calls the provider.
   */
  lemma Replay(w: World, ops: seq<Op>)
    requires Ok(w) && w.arena.opts.retainAll && JustReset(w.arena)
    requires ConformingAll(w, ops) && ServedAll(w, ops)
    ensures var first := ExecAll(w, ops);
            |first.arena.chunks| > 0 &&
            var second := ExecAll(ResetIn(first), RefusedAll(ops));
            && w.trace <= first.trace
            && second.trace == first.trace + first.trace[|w.trace|..]
            && second.providerCalls == first.providerCalls
  {
    var first := ExecAll(w, ops);
    ExecAllOk(w, ops);
    ExecAllGrows(w, ops);
    var b := ResetIn(first);
    var all := Emptied(first.arena.chunks);
    assert Mirrors(w.arena, b.arena, all) by {
      assert Emptied(b.arena.chunks) == all;
    }
    hide Ok;
    MirrorExecAll(w, b, ops, all);
  }
}
