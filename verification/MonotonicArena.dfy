/**
 The arena as the objects that the library mutates: chunks whose cursor moves in place and
 an arena that owns them and remembers its last allocation by reference to its chunk. Each
 method is proved to carry out the corresponding function of ArenaModel.
 */
module MonotonicArenas {
  import opened Bits
  import opened Provider
  import opened Growth
  import M = ArenaModel

  class ArenaChunk {
    const storage: Addr
    const capacity: nat
    const alignment: nat
    var offset: nat

    function View(): M.Chunk
      reads this
    {
      M.Chunk(storage, capacity, alignment, offset)
    }

    constructor (storage: Addr, capacity: nat, alignment: nat)
      ensures View() == M.Chunk(storage, capacity, alignment, 0)
    {
      this.storage, this.capacity, this.alignment := storage, capacity, alignment;
      offset := 0;
    }

    /** On success the cursor moves past padding and payload, otherwise nothing changes. */
    method TryAllocate(size: nat, alignment: nat) returns (r: Option<M.Allocation>)
      requires alignment != 0
      modifies `offset
      ensures r == M.TryAllocate(old(View()), size, alignment)
      ensures View() == if r.Some? then M.Advanced(old(View()), r.value) else old(View())
    {
      if alignment > this.alignment || offset > capacity {
        return None;
      }
      var candidate, space := storage + offset, capacity - offset;
      var pad := M.Padding(candidate, alignment);
      if pad + size > space {
        return None;
      }
      var previous := offset;
      offset := candidate + pad - storage + size;
      return Some(M.Allocation(candidate + pad, previous, offset - previous));
    }

    method Rewind(previous: nat)
      modifies `offset
      ensures View() == M.Rewound(old(View()), previous)
    {
      if previous <= offset {
        offset := previous;
      }
    }

    method Reset()
      modifies `offset
      ensures View() == old(View()).(offset := 0)
    {
      offset := 0;
    }
  }

  datatype LastAllocation = LastAllocation(chunk: ArenaChunk?, pointer: Addr, previous: nat, consumed: nat)

  function Reversed(xs: seq<Addr>): (r: seq<Addr>)
    ensures |r| == |xs|
    ensures forall i :: 0 <= i < |xs| ==> r[i] == xs[|xs| - 1 - i]
  {
    if |xs| == 0 then [] else [xs[|xs| - 1]] + Reversed(xs[..|xs| - 1])
  }

  class MonotonicArena {
    const opts: M.Options
    var chunks: seq<ArenaChunk>
    var current: nat
    var nextSize: nat
    var last: LastAllocation
    var used: int
    var destructors: seq<Addr>
    ghost var growths: nat
    ghost var lastIndex: nat

    ghost predicate Valid()
      reads this
    {
      && (opts.growth.Geometric? ==> opts.growth.factor != 0)
      && |chunks| > 0
      && (forall i, j :: 0 <= i < j < |chunks| ==> chunks[i] != chunks[j])
      && (last.chunk != null ==> lastIndex < |chunks| && chunks[lastIndex] == last.chunk)
    }

    ghost function Views(): seq<M.Chunk>
      reads this, chunks
    {
      seq(|chunks|, i requires 0 <= i < |chunks| reads this, chunks => chunks[i].View())
    }

    ghost function View(): M.Arena
      reads this, chunks
    {
      M.Arena(opts, Views(), current, nextSize,
              if last.chunk == null then M.NoLast else M.Last(lastIndex, last.pointer, last.previous, last.consumed),
              used, destructors, growths)
    }

    /** The options are those `validate_options` returned; the provider has answered for the initial chunk. */
    constructor (opts: M.Options, storage: Addr)
      requires opts.growth.Geometric? ==> opts.growth.factor != 0
      ensures Valid() && fresh(chunks) && View() == M.New(opts, storage)
    {
      var initial := new ArenaChunk(storage, opts.initialSize, opts.initialAlignment);
      this.opts := opts;
      chunks := [initial];
      current := 0;
      nextSize := NextSize(opts.growth, opts.initialSize, opts.initialSize);
      last := LastAllocation(null, 0, 0, 0);
      used := 0;
      destructors := [];
      growths, lastIndex := 0, 0;
      new;
      assert Views() == M.New(opts, storage).chunks;
    }

    /** Takes the block from chunk `index`, if it fits there, and books it. */
    method TakeFrom(index: nat, n: nat, alignment: nat) returns (r: Option<M.Allocation>)
      requires Valid() && index < |chunks| && alignment != 0
      modifies this, chunks[index]
      ensures Valid() && chunks == old(chunks)
      ensures r == M.TryAllocate(old(Views())[index], n, alignment)
      ensures View() == if r.Some? then M.Place(old(View()), index, r.value) else old(View())
    {
      r := chunks[index].TryAllocate(n, alignment);
      if r.Some? {
        current := index;
        used := used + r.value.consumed;
        last, lastIndex := LastAllocation(chunks[index], r.value.pointer, r.value.previous, r.value.consumed), index;
        assert Views() == old(Views())[index := M.Advanced(old(Views())[index], r.value)];
      } else {
        assert Views() == old(Views());
      }
    }

    /** `add_chunk` together with the growth of the next size. */
    method AddChunk(n: nat, alignment: nat, storage: Addr) returns (chunk: ArenaChunk)
      requires Valid()
      modifies this
      ensures Valid() && fresh(chunk) && chunks == old(chunks) + [chunk]
      ensures View() == M.AddChunk(old(View()), storage, n, alignment)
    {
      chunk := new ArenaChunk(storage, Max(nextSize, n), Max(opts.initialAlignment, alignment));
      chunks := chunks + [chunk];
      current := |chunks| - 1;
      nextSize := NextSize(opts.growth, opts.initialSize, nextSize);
      growths := growths + 1;
      assert Views() == M.AddChunk(old(View()), storage, n, alignment).chunks;
    }

    /** Serves the request from a new chunk. */
    method AllocateFresh(n: nat, alignment: nat, storage: Addr) returns (r: Option<M.Allocation>)
      requires Valid() && alignment != 0
      modifies this
      ensures Valid() && |chunks| == |old(chunks)| + 1 && old(chunks) <= chunks && fresh(chunks[|chunks| - 1])
      ensures var grown := M.AddChunk(old(View()), storage, n, alignment);
              && r == M.TryAllocate(grown.chunks[|old(chunks)|], n, alignment)
              && View() == if r.Some? then M.Place(grown, |old(chunks)|, r.value) else grown
    {
      var chunk := AddChunk(n, alignment, storage);
      assert chunks[|chunks| - 1] == chunk;
      r := TakeFrom(|chunks| - 1, n, alignment);
    }

    /** Tries the chunks from the current one on, and only then asks the provider for a new one. */
    method Allocate(size: nat, alignment: nat, answer: Option<Addr>) returns (out: M.Outcome)
      requires Valid()
      modifies this, chunks
      ensures Valid() && old(chunks) <= chunks && forall i :: |old(chunks)| <= i < |chunks| ==> fresh(chunks[i])
      ensures (View(), out) == M.Allocate(old(View()), size, alignment, answer)
    {
      if !IsPowerOfTwo(alignment) {
        return M.InvalidAlignment;
      }
      hide M.TryAllocate, M.AddChunk, M.Place, IsPowerOfTwo;
      var n := M.Normalized(size);
      var index := current;
      while index < |chunks|
        invariant current <= index
        invariant View() == old(View()) && chunks == old(chunks) && Valid()
        invariant M.FirstFit(Views(), current, n, alignment) == M.FirstFit(Views(), index, n, alignment)
      {
        var al := TakeFrom(index, n, alignment);
        if al.Some? {
          return M.Pointer(al.value.pointer);
        }
        index := index + 1;
      }
      if answer.None? {
        return M.OutOfMemory;
      }
      var al := AllocateFresh(n, alignment, answer.value);
      return if al.None? then M.LogicError else M.Pointer(al.value.pointer);
    }

    /** Only the latest allocation goes: its chunk's cursor and the used bytes are what they were before it. */
    method RollbackLast(pointer: Addr)
      requires Valid()
      modifies this, chunks
      ensures Valid() && chunks == old(chunks) && View() == M.Rollback(old(View()), pointer)
      ensures var latest := old(last);
              if latest.chunk == null || latest.pointer != pointer then View() == old(View())
              else
                && last.chunk == null && used == old(used) - latest.consumed
                && forall i :: 0 <= i < |chunks| ==>
                     chunks[i].offset ==
                       if chunks[i] == latest.chunk then Min(latest.previous, old(chunks[i].offset))
                       else old(chunks[i].offset)
    {
      if last.pointer != pointer || last.chunk == null {
        return;
      }
      last.chunk.Rewind(last.previous);
      used := used - last.consumed;
      last := LastAllocation(null, 0, 0, 0);
      assert Views() == old(Views())[lastIndex := M.Rewound(old(Views())[lastIndex], old(last.previous))];
    }

    method RegisterDestructor(target: Addr)
      requires Valid()
      modifies `destructors
      ensures Valid() && View() == old(View()).(destructors := old(destructors) + [target])
    {
      destructors := destructors + [target];
    }

    /** Registered objects are destroyed newest first; `order` lists the calls made. */
    method DestroyRegistered() returns (order: seq<Addr>)
      modifies `destructors
      ensures destructors == [] && order == Reversed(old(destructors))
    {
      order := [];
      while |destructors| > 0
        invariant destructors <= old(destructors)
        invariant order + Reversed(destructors) == Reversed(old(destructors))
      {
        var record := destructors[|destructors| - 1];
        destructors := destructors[..|destructors| - 1];
        order := order + [record];
      }
    }

    /** Objects go in reverse order of registration, then storage is rewound by policy. */
    method Reset() returns (order: seq<Addr>)
      requires Valid()
      modifies this, chunks
      ensures Valid() && View() == M.Reset(old(View()))
      ensures order == Reversed(old(destructors))
    {
      order := DestroyRegistered();
      used, current := 0, 0;
      last := LastAllocation(null, 0, 0, 0);
      if opts.retainAll {
        var i := 0;
        while i < |chunks|
          invariant 0 <= i <= |chunks| && chunks == old(chunks)
          invariant forall j :: 0 <= j < i ==> chunks[j].View() == old(chunks[j].View()).(offset := 0)
          invariant forall j :: i <= j < |chunks| ==> chunks[j].View() == old(chunks[j].View())
          modifies chunks
        {
          chunks[i].Reset();
          i := i + 1;
        }
        assert Views() == M.Emptied(old(Views()));
        return;
      }
      chunks[0].Reset();
      chunks := chunks[..1];
      nextSize := NextSize(opts.growth, opts.initialSize, opts.initialSize);
      growths := 0;
      assert Views() == M.Emptied(old(Views())[..1]);
    }

    /** Chunks are only added, and only new objects are added. */
    twostate predicate OnlyAdded()
      reads this
    {
      old(chunks) <= chunks && forall i :: |old(chunks)| <= i < |chunks| ==> fresh(chunks[i])
    }

    /**
     A raw allocation, or `create<T>`: allocate, run the constructor (which may allocate and
     create in turn), then register the object or, if anything threw, roll back.
     */
    method Perform(op: M.Op, ghost w: M.World)
      requires Valid() && View() == w.arena
      modifies this, chunks
      ensures Valid() && OnlyAdded() && View() == M.Exec(w, op).arena
      decreases op
    {
      hide M.Allocate, M.Rollback;
      var out := Allocate(op.size, op.alignment, op.answer);
      if op.Alloc? || !out.Pointer? {
        return;
      }
      ghost var w1 := M.AllocateIn(w, op.size, op.alignment, op.answer).0;
      PerformAll(op.body, w1);
      hide M.AllocateIn, M.Finish;
      Finish(out.p, op.ending, M.ExecAll(w1, op.body));
    }

    /** What `create` does once the constructor call has ended. */
    method Finish(p: Addr, ending: M.Ending, ghost w: M.World)
      requires Valid() && View() == w.arena
      modifies this, chunks
      ensures Valid() && chunks == old(chunks) && View() == M.Finish(w, p, ending).arena
    {
      hide M.Rollback;
      match ending
      case Throws => RollbackLast(p);
      case RegistrationThrows => RollbackLast(p);
      case Completes =>
      case Registers => RegisterDestructor(p);
    }

    method PerformAll(ops: seq<M.Op>, ghost w: M.World)
      requires Valid() && View() == w.arena
      modifies this, chunks
      ensures Valid() && OnlyAdded() && View() == M.ExecAll(w, ops).arena
      decreases ops
    {
      if |ops| > 0 {
        Perform(ops[0], w);
        PerformAll(ops[1..], M.Exec(w, ops[0]));
      }
    }
  }
}
